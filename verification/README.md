# demarkus in Dafny

A model of the parts of demarkus where versioned Markdown documents are merged, stored, watched,
published, indexed, crawled and served, with proofs of what each of them promises. Each file models
one component; the imperative parts of the source are methods and classes proved against value-level
specifications, and the laws are lemmas about those specifications.

| file | component |
|---|---|
| `Merge.dfy` | three-way line merge (`client/merge/diff3.go`) |
| `Watch.dfy` | the resuming WATCH client (`client/fetch/watch.go`) |
| `Pool.dfy` | the QUIC connection pool (`client/fetch/fetch.go`) |
| `Generation.dfy` | two-slot publication of generated artifacts (`client/generation/generation.go`) |
| `Tables.dfy`, `Index.dfy`, `Sharding.dfy`, `Manifest.dfy` | the sharded hash index: its text, its shards and its manifest, building and reading them (`client/index/sharded.go`) |
| `Publication.dfy` | publishing that index through the two slots (`client/index/publish.go`) |
| `StoreFmt.dfy` | the stored-version format (`protocol/storefmt`, `protocol/frontmatter.go`) |
| `Store.dfy` | one document of the file store (`protocol/store/store.go`) |
| `HashIndex.dfy` | the content-hash index and its fingerprint (`protocol/store/store.go`) |
| `Worlds.dfy`, `Tokens.dfy` | hot reload of served worlds and of their tokens (`server/knowledgeserver`) |
| `Crawl.dfy` | the breadth-first link crawl (`client/graph/crawl.go`) |
| `Adjacency.dfy`, `Neighborhood.dfy`, `Snapshot.dfy` | the graph store (`client/graphstore`) |
| `Text.dfy`, `Paths.dfy`, `Sha256.dfy`, `Seqs.dfy`, `SortedStrings.dfy`, `Wrappers.dfy` | shared vocabulary |

`dafny verify dfyconfig.toml` checks everything.

## How the source is modelled

- **Text** is a sequence of Unicode characters. Sizes are counted in UTF-8 bytes (`Text.Len`), so the
  byte limits of the source are the limits of the model.
- **SHA-256** is an arbitrary function to 64 hexadecimal digits. Nothing assumes it injective; `Store.ChainPinsHistory`,
  `Store.GapFound` and `Store.EntrySkipped` ask that the bytes they compare do not collide.
- **Disk, network, clock and randomness** are parameters or free choices: `Store.Faults` says which disk
  steps of an operation fail, `Worlds.Failures` what fails in a reload, `Generations.Fate` what becomes of a
  request, `Watches.Answer` and `Watches.Block` what a server sends (within `Watches.Allowed` and
  `Watches.AnswerAllowed`, the server's side of the WATCH contract), `Crawl.Web` what every URL holds.
- **Concurrency** is interleaving. Every critical section of the connection pool, every channel
  operation of a watch and every request of a publisher is one step; the run methods (`Watches.AnyRun`,
  `Pool.Run`, `Worlds.Run`, `Store.Run`) and `Generations.Execute` take the steps in any order, with every
  choice left open, so an invariant they keep holds in every reachable state.

## Main results

- **Merge.** `Diff3` equals `Merged`, which cuts base, ours and theirs into one shared list of
  pieces. Swapping the sides changes neither the verdict nor a clean body; an untouched side gives the
  other side back; equal edits collapse; and if no hunk of one side collides with a hunk of the other, the
  result is base with both hunk lists applied and there is no conflict. All of it also holds past
  the LCS cell cap, where a whole document is one hunk. Within the cap the pairing is a longest one.
- **Watch.** However streams are cut, stalled, refused or blocked on a full queue, what `Next` returns between
  two resyncs is a prefix of exactly the wanted events of the log after the segment's start, and a second
  watch started from `Cursor()` continues that history without a gap or a repeat. With no resync
  outstanding, what is queued is exactly the log between the consumer's cursor and the stream's.
- **Generations.** Any number of publishers, crashes, refusals and lost or late requests: every manifest text ever
  committed was rendered over complete shards that its publisher staged, in the slot its predecessor does not name;
  pins keep their bodies forever; a publisher that failed before its manifest write never changes the manifest,
  and none commits twice.
- **Index.** `IndexAgreesWithScan`: from the manifest's text, reading only the shards of one prefix finds
  exactly what filtering the whole sorted list finds, and loading all of them gives the list back, through the
  Markdown tables, the cell escapes, the size target and the manifest's own checks. `ManifestRoundTrip` says exactly
  when a printed manifest reads back, and `ManifestAccepted` exactly when the manifest of built shards is printed.
- **Published index.** `CommittedIndexAnswers` joins the last two: publishers race, crash, lose responses and are
  refused in any order, and a reader of the text of any manifest they ever committed, at any later time, finds
  exactly one publisher's entries. `SlotsAlternate`: a manifest committed over another names the other slot.
- **Stored versions.** Content with any number of fences comes back character for character; metadata
  comes back normalized; the canonical reader accepts exactly what the printer can print; and every
  version's frontmatter fits the 2048 bytes reserved for it.
- **Store.** See the next section: the chain is kept by every operation, exactly unless a listing lies.
- **Hash index.** After any updates, maps and fingerprint are those of a fresh build over the same documents, and
  a changed document moves the fingerprint unless SHA-256 collides.
- **Worlds and tokens.** No routed or coordinated runtime is ever closed, each runtime is in one place,
  token files are watched exactly as often as open runtimes use them, and no token hash is in two
  worlds between any two publishes of a reload, the ones a failing reload leaves behind included.
- **Crawl.** A complete crawl has found exactly the URLs within the depth limit, each at its shortest distance,
  each read whole, with exactly their links; every crawl fetches a URL at most once and keeps its caps; and an
  incomplete one says so for a reason that holds of the graph.
- **Graph store.** The adjacency windows cut from one slab never overlap and hold exactly the edge indices;
  following the cursor lists every neighbour once, in order, exactly unless a page ends at a URL that makes its
  cursor too long; doubling and bisection find the longest run of rows that fits.
- **Pool.** The in-flight count is the number of holders, a connection somebody holds is never closed, a
  retired one is never handed out, and the last release of a retired one goes on to close it. A stored connection
  stays pooled until it is retired or, being dead, overwritten.

## Where the code does less than its comments say

- **A retention prune need not leave a contiguous suffix.** `pruneVersions` (`protocol/store/store.go:1433-1475`)
  stops at the first failed removal "so survivors stay a contiguous suffix", but the listing it works from
  drops entries whose directory information cannot be read (lines 983-1003), and the prune then removes newer
  versions while such an older one stays. `Store.EntrySkipped` builds the run: v1 and v3 remain, no error is
  reported, and v3 hashes a version that is gone. `Store.PruneLinks` gives the exact condition in terms of
  what the prune is about to find (`Store.SkipsBelow`): an entry it cannot examine below a version it examines and
  will reach.
- **An unreadable versions directory counts as empty.** `highestPerDocVersion` (lines 938-953) returns 0 when
  the directory cannot be read, so a write to an existing document starts again at version 1. With v1 still
  there the exclusive create refuses; with v1 pruned the write lands below the newer versions and the
  current link moves back to it. `Store.ListingLost` builds that run.
- **Exactly then.** `Store.WriteKeepsLinked` is an equivalence over all documents, contents, metadata and
  failing disk steps: a landed write keeps the version files consecutive, linked by hash and
  topped by the current one if and only if `Store.Breaks`, which looks at the document, the metadata and the failing
  steps before the write, is false. An operation that does not land keeps them always. `Store.FirstBreak` and
  `Store.Run` carry the equivalence to whole runs: the document is linked up to the first change that
  `Store.Breaks` foretells and not right after it.
- **Chain verification sees the first of the two and can miss the second.** Without a collision among the
  versions involved, it reports a hole exactly when a landed write leaves one (`Store.GapFound`). When a lost
  listing put a new v1 below the newer versions, it notices unless that v1 hashes as the pruned one did: rewriting
  the original first version passes verification, although the document now points below its newest
  version (`Store.ListingLost` has both cases).
- **A landed write can be reported as a plain failure.** When the file information of the new version
  cannot be read after the link has moved (lines 1409-1412), the caller sees an error that is not one of the
  committed ones, and neither the index update nor the prune happens. `Store.StatLost` builds the run; a landed write
  is reported this way exactly when that one step fails, and the chain is kept.
- **A dead connection can leave the pool without being closed.** `getConnContext` overwrites a dead
  pooled connection with a new one (`client/fetch/fetch.go:417-426`); the old one is closed only if a
  request that used it evicts it. `Pool.DeadOverwritten` builds a run after which it is nobody's. `Pool.Client.Step` has the
  exact condition: a step takes a connection out of the pool without retiring it if and only if it stores a dialed
  one over it and it is dead. It is never handed out or closed under a holder.
- **A manifest can be printed that cannot be read.** `Manifests.ManifestRoundTrip` proves that there are exactly
  three ways. `BuildManifest` checks a shard's directory with `path.Dir`, which cleans, so a newline can hide in
  a segment that `..` cancels; its table row then breaks in two (`Manifests.NewlineLost`). A time in the first
  second of year 1 is not the zero time, but is printed as it (`Manifests.FirstSecondLost`). And the year is checked in the
  time's own zone (`client/index/sharded.go:447`) but printed in UTC (line 86): the last evening of 9999 west of
  Greenwich is printed with the year 10000, the first morning of year 1 east of it with the year 0, and neither is
  read (`Manifests.LastEveningLost`, `Manifests.FirstMorningLost`). None of the three arises for shards that
  `BuildShards` made and a time that is in UTC and after that second, and the publisher of the index takes its time to UTC
  (`client/index/publish.go:66`).
- **The graph store can refuse its own cursor.** A next cursor carries the last URL of the page, and a
  request's cursor may have at most 1024 bytes (`client/graphstore/neighborhood.go:186-188`), but nothing bounds what
  `encodeNeighborhoodCursor` gives. `Neighborhood.LongUrlStuck` has a document whose second neighbour is never listed.
  `Neighborhood.AllPages` gives the exact condition, over the sorted neighbours: some page ends, with more to come, at a
  URL of more than 689 bytes as JSON (`Neighborhood.CursorLimit`).

## Model

| member | source | states |
|---|---|---|
| `Merge.SplitLinesRoundTrip` | client/merge/diff3.go:128-133 | The lines joined are the text, and every line but the last ends at its one newline. |
| `Merge.LcsLenIsMaximal` | client/merge/diff3.go:195-206 | No increasing pairing of equal lines of the two prefixes has more pairs than the table entry. |
| `Merge.FillTable` | client/merge/diff3.go:191-206 | The in-place table holds, at every cell, the length of the longest common subsequence of the prefixes. |
| `Merge.LcsMatches` | client/merge/diff3.go:183-226 | Strictly increasing pairs of equal lines; within the cell cap no pairing has more of them, past it there are none. |
| `Merge.HunksBetween` | client/merge/diff3.go:145-166 | The loop over the matches produces the gaps between them, the one after the last match included. |
| `Merge.EditHunks` | client/merge/diff3.go:143-166 | The hunks of a side are the gaps of its LCS pairing. |
| `Merge.HunksAlign` | client/merge/diff3.go:143-166 | For any increasing pairing, not only the longest, the hunks are ordered, in range, separated by a shared line, and base and side agree everywhere else. |
| `Merge.HunksRebuildSide` | client/merge/diff3.go:143-166 | Base with its hunks applied is the side, within the cap and past it. |
| `Merge.EditsRebuildSide` | client/merge/diff3.go:143-166 | The same from any position of any aligned side. |
| `Merge.ChunkEnd` | client/merge/diff3.go:82-105 | The absorption ends at the least point that no hunk of either side crosses. |
| `Merge.ChunkEndSwap` | client/merge/diff3.go:82-105 | Which side is absorbed first does not matter. |
| `Merge.Absorb` | client/merge/diff3.go:82-105 | The loop terminates at that point and leaves exactly the hunks that start at or after it. |
| `Merge.TakeChunk` | client/merge/diff3.go:58-119 | An unstable chunk covers the same region of base on both sides, and each side's range ends where base and side are aligned again. |
| `Merge.PiecesTile` | client/merge/diff3.go:34-120 | Conservation: the pieces tile base and ours, and by `Merge.SwapPieces` theirs, with nothing lost or repeated. |
| `Merge.SwapPieces` | client/merge/diff3.go:34-120 | Exchanging the sides exchanges them inside every piece and moves no boundary. |
| `Merge.EmitChunk` | client/merge/diff3.go:228-254 | Writes the side that changed, or either when both changed alike, or both between markers, and reports a conflict exactly in that last case. |
| `Merge.EmitConflict` | client/merge/diff3.go:246-253 | The marker block, each side padded to end with a newline. |
| `Merge.MergeStep` | client/merge/diff3.go:34-119 | One turn of the main loop writes one piece and moves all three cursors past it. |
| `Merge.Diff3` | client/merge/diff3.go:20-123 | Terminates with the body and the verdict of the specification `Merged`. |
| `Merge.MergeIsSymmetric` | client/merge/diff3.go:34-122 | Swapping ours and theirs never changes the conflict flag, nor the body when there is no conflict. |
| `Merge.UntouchedTheirs` | client/merge/diff3.go:15-123 | Merging with an untouched theirs gives ours, without conflict, within the cap and past it. |
| `Merge.UntouchedOurs` | client/merge/diff3.go:15-123 | Merging with an untouched ours gives theirs, without conflict. |
| `Merge.SameEditTwice` | client/merge/diff3.go:15-123 | Both sides having the same text gives that text, without conflict. |
| `Merge.DisjointPieces` | client/merge/diff3.go:34-120 | From any position, without colliding hunks no piece conflicts and what is written is base with both hunk lists applied. |
| `Merge.DisjointEditsMerge` | client/merge/diff3.go:20-123 | If no ours hunk starts with or inside a theirs hunk or the other way round, the body is base with both hunk lists applied and there is no conflict. |
| `Watches.Watch.Open` | client/fetch/watch.go:177-218 | One answered subscription: where the stream starts, when the watch ends, and what `Cursor` reports before anything was consumed; the history stays faithful to the log. |
| `Watches.Watch.QueueResync` | client/fetch/watch.go:267-278 | A resync given instead of the acknowledgement is queued only when there is room, and then the subscription is tried again. |
| `Watches.Watch.Pump` | client/fetch/watch.go:329-373 | One block moves the stream's cursor and decides between delivering, going on, reopening and ending, for every kind of block; the history stays faithful. |
| `Watches.Watch.Deliver` | client/fetch/watch.go:375-391 | A full queue cancels the stream and keeps the notice in hand; the history does not change. |
| `Watches.Watch.Unblock` | client/fetch/watch.go:384-391 | Once there is room the kept notice is queued, and the stream reopens after it. |
| `Watches.Watch.Cut` | client/fetch/watch.go:336-343 | A lost, stalled or reset stream costs nothing: the watch reopens from its cursor. |
| `Watches.Watch.Cancel` | client/fetch/watch.go:282-314 | Ending the watch drops only what was not queued yet. |
| `Watches.Watch.Next` | client/fetch/watch.go:94-125 | Returns the oldest queued notice, and `Cursor` becomes its cursor. |
| `Watches.StepQuiet` | client/fetch/watch.go:344-360 | A block the server may send is the next wanted event after the consumer's position, or passes over none. |
| `Watches.ChangesAreTheLog` | client/fetch/watch.go:54-56 | A faithful run of changes is the log filtered to wanted events between its two ends. |
| `Watches.SegmentIsLogPrefix` | client/fetch/watch.go:54-56 | What `Next` returned between two resyncs is a prefix of exactly the wanted events of the log after the segment's start, in order, without gap or duplicate. |
| `Watches.RestartMissesNothing` | client/fetch/watch.go:118-125 | Whatever a second watch opened from `Cursor()` returns, over any later log, continues the first history faithfully. |
| `Watches.QueueIsTheGap` | client/fetch/watch.go:127-133 | With no resync outstanding, the queue and the notice in hand are exactly the wanted events between the consumer's cursor and the stream's. |
| `Watches.FaithfulSplit` | client/fetch/watch.go:118-125 | A faithful history can be cut at any notice, whose cursor is where the rest starts. |
| `Watches.FaithfulJoin` | client/fetch/watch.go:118-125 | Histories that meet at a cursor join. |
| `Watches.AnyRun` | client/fetch/watch.go:75-92 | Any interleaving of the log's growth, the server, the network, the reader and the consumer keeps the watch valid. |
| `Pool.Client.Lookup` | client/fetch/fetch.go:380-383 | The looked-up connection is the one stored for the host, or the request goes on to dial. |
| `Pool.Client.TestFound` | client/fetch/fetch.go:385-390 | A dead connection is evicted, a live one is used. |
| `Pool.Client.Dial` | client/fetch/fetch.go:392-415 | A dial gives a connection only its request knows, or ends the request. |
| `Pool.Client.Store` | client/fetch/fetch.go:417-428 | A dialed connection is stored, unless a live one for the host got there first, which then is kept and used; a dead one in its place is dropped, and nothing else is. |
| `Pool.Client.CloseLost` | client/fetch/fetch.go:418-424 | Only the request's own connection, held by nobody, is closed. |
| `Pool.Client.EvictStale` | client/fetch/fetch.go:385-390 | A connection found dead leaves the pool; it drains while held, and is closed at once when idle. |
| `Pool.Client.Evict` | client/fetch/fetch.go:482-497 | Exactly the given connection is retired: a replacement stored meanwhile stays, draining is marked only while it is held. |
| `Pool.Client.Count` | client/fetch/fetch.go:441-462 | A request becomes a holder only of the connection still pooled for its host, which is neither retired nor closed; otherwise nothing is counted. |
| `Pool.Client.EvictHeld` | client/fetch/fetch.go:362-369 | Disposing of a failed connection marks it draining while its own use still counts. |
| `Pool.Client.Release` | client/fetch/fetch.go:464-480 | One use fewer; the last use of a draining connection, and only that, goes on to close it. |
| `Pool.Client.FinishClose` | client/fetch/fetch.go:477-479 | The connection being closed has no holder. |
| `Pool.HoldersMove` | client/fetch/fetch.go:441-480 | A request's step changes the holders of a connection by exactly its own use. |
| `Pool.EvictKeeps` | client/fetch/fetch.go:482-497 | Retiring any pooled connection keeps the whole invariant, held or idle. |
| `Pool.CountKeeps` | client/fetch/fetch.go:449-455 | Only an unretired, unclosed connection gains a holder. |
| `Pool.ReleaseKeeps` | client/fetch/fetch.go:464-480 | The count after a release is the number of holders left. |
| `Pool.CloseKeeps` | client/fetch/fetch.go:477-496 | Closing is only ever done to a connection without holders, and keeps the invariant. |
| `Pool.Client.Step` | client/fetch/fetch.go:362-497 | Any request's next step leaves the other requests alone, closes nothing that is held, and hands out nothing retired; it takes a connection out of the pool without retiring it if and only if it overwrites a dead one. |
| `Pool.Run` | client/fetch/fetch.go:362-497 | After any interleaving with connections dying at any time: in-flight counts are holder counts, closed connections have no holder, the pool holds no retired one, every retired one is closed, being closed, or draining with a holder, a stored one is pooled exactly unless it was retired or overwritten when dead, and every other open one is draining, being closed or a request's own. |
| `Pool.DeadOverwritten` | client/fetch/fetch.go:417-426 | A run after which a stored, dead connection is in no pool, held by nobody, and neither retired, draining, being closed nor closed. |
| `Generations.PutGrows` | client/generation/generation.go:34-40 | Writes never change a stored version. |
| `Generations.SendOnce` | client/generation/generation.go:193-217 | Whatever becomes of a request, it adds at most one commit to its sender. |
| `Generations.SendKeeps` | client/generation/generation.go:196-227 | Sending, with any fate of the request, keeps the invariant. |
| `Generations.NextKeeps` | client/generation/generation.go:87-123 | Every step of every publisher, and every late arrival, keeps the invariant and only adds versions. |
| `Generations.ExecuteKeeps` | client/generation/generation.go:87-123 | So does every finite interleaving. |
| `Generations.EveryManifestPinsItsGeneration` | client/generation/generation.go:85-123 | Every manifest version a publisher ever committed is the text it rendered over pins that give, for each of its shards, a stored version with exactly that body, in the slot that the manifest it replaced does not name to it. |
| `Generations.ReaderSeesOneGeneration` | client/generation/generation.go:1-4 | A reader that takes a manifest and follows the pins it was rendered from at any later time gets all shards of one publisher's one generation. |
| `Generations.SuccessMeansCommitted` | client/generation/generation.go:118-123 | A publisher that succeeds has the text it rendered over its complete staged shards stored at the version it reports. |
| `Generations.EarlyFailureLeavesManifest` | client/generation/generation.go:85-86 | A publisher that failed before its manifest write commits no manifest version, then or later. |
| `Generations.OneManifestPerPublisher` | client/generation/generation.go:193-217 | However responses are lost, nobody commits more than one manifest version. |
| `Publications.IndexSeparate` | client/index/publish.go:46-62 | No shard of a built index lies at the manifest's own path, which is all that the generation results ask of a publisher. |
| `Publications.CommittedIndexAnswers` | client/index/publish.go:38-75 | Over any interleaving of publishers, refusals, crashes and lost responses: from the text of any committed manifest, read at any later time, every hash finds exactly its publisher's entries with that hash, and loading gives that publisher's sorted list; only a manifest dated in the first second of year 1 is refused. |
| `Publications.SlotsAlternate` | client/index/publish.go:87-108 | Of two manifests committed one on the other, the lower reads back and names its own slot, and the upper names the other one: nobody publishes over a manifest that does not read back. |
| `Tables.CellRoundTrip` | client/index/sharded.go:763-773 | Decoding undoes encoding on every string, and an encoded cell holds no bar and no space. |
| `Tables.DataRowCells` | client/index/sharded.go:548-566 | A row of cells without bars reads back as those cells, leading and trailing spaces included. |
| `Tables.PreambleReads` | client/index/sharded.go:499-546 | A printed heading, metadata lines and table header read back as the metadata, and the data rows are exactly the lines after them. |
| `Tables.BrokenRow` | client/index/sharded.go:515-521 | A newline inside a cell leaves a line that is no row, and the whole table is refused. |
| `Index.EntryShape` | client/index/sharded.go:680-693 | A valid entry has a 71-character hash with a two-digit prefix and no character that would break a row. |
| `Index.RowReadsBack` | client/index/sharded.go:548-581 | A printed row splits into the cells of its entry. |
| `Index.DataRowsRead` | client/index/sharded.go:499-534 | The rows of any list of valid entries of a prefix read back as that list. |
| `Index.HeaderReads` | client/index/sharded.go:387-390 | The metadata lines of a shard header read back as its format, prefix, part and row count. |
| `Index.ShardRoundTrip` | client/index/sharded.go:374-438 | What `buildShard` writes, `parseShard` reads back: prefix, part and every entry, in order. |
| `Sharding.SortEntriesSorts` | client/index/sharded.go:185-186 | Sorting orders the entries by hash, server and path and keeps each of them. |
| `Sharding.ShardFileReads` | client/index/sharded.go:602-615 | A shard's file name reads back as its prefix and part, past three digits too. |
| `Sharding.ShardPathReads` | client/index/sharded.go:583-600 | So does the last segment of its path under any manifest and slot. |
| `Sharding.FillShard` | client/index/sharded.go:336-354 | The run that fills a shard is not empty, fits the target, and would not fit with one more row. |
| `Sharding.BuildPrefixParts` | client/index/sharded.go:334-372 | The parts of one prefix are numbered from zero, tile its entries, stay within the target and are each as full as it allows; a refusal means a bad entry or a row that fits nowhere. |
| `Sharding.GroupEnd` | client/index/sharded.go:188-203 | A prefix group ends exactly before the first entry of another prefix. |
| `Sharding.BuildShards` | client/index/sharded.go:167-212 | The shards tile the sorted entries, one prefix after another in ascending order, each maximal within the target; a refusal has one of the stated causes. |
| `Sharding.ScanPrefix` | client/index/sharded.go:279-294 | The loop over the manifest reads the shards of one prefix in order and stops at the first that cannot be verified. |
| `Sharding.ShardVerifies` | client/index/sharded.go:223-248 | Verification accepts every shard that was built, at the version its descriptor pins, and gives its entries back. |
| `Paths.CleanSegments` | client/index/sharded.go:666-669 | A clean rooted path other than the root is a list of proper segments. |
| `Manifests.TimeReads` | client/index/sharded.go:86 | A time printed in UTC reads back as the start of its second if its UTC year is in 0 to 9999, and is not read as a time at all otherwise. |
| `Manifests.ValidateManifest` | client/index/sharded.go:440-497 | The two passes over the descriptors accept exactly the manifests with a valid path, source, time and slot, valid descriptors, no path twice, no part missing, and the right row total; a time is valid when it is not the zero instant and its year in its own zone is in 1 to 9999. |
| `Manifests.BuildManifest` | client/index/sharded.go:74-101 | Prints the descriptors in manifest order and the time, given in any zone, in UTC; or refuses an invalid manifest and one over 1 MiB, and nothing else. |
| `Manifests.RefsRead` | client/index/sharded.go:131-151 | Descriptors without a newline in their path read back, in order. |
| `Manifests.RefsBroken` | client/index/sharded.go:515-521 | One path with a newline, and the printed table is refused. |
| `Manifests.ManifestRoundTrip` | client/index/sharded.go:75-163 | A printed manifest reads back whole, its time in UTC to the second, if and only if that time has a UTC year in 1 to 9999 and is not in the first second of year 1, and no shard path has a newline; otherwise it is refused. |
| `Manifests.NewlineLost` | client/index/sharded.go:592-598 | A manifest with a newline in a segment cancelled by `..` that is printed and then refused, whatever its time. |
| `Manifests.FirstSecondLost` | client/index/sharded.go:447-449 | The same for every time in UTC within the first second of year 1 but not at its start. |
| `Manifests.LastEveningLost` | client/index/sharded.go:86 | The same at eleven in the evening of the last day of 9999, five hours behind UTC: the year 10000 is printed. |
| `Manifests.FirstMorningLost` | client/index/sharded.go:86 | The same at five in the morning of the first day of year 1, ten hours ahead of UTC: the year 0 is printed. |
| `Manifests.ZoneYears` | client/index/sharded.go:447-449 | For a valid time in a zone less than a day off UTC, what does not read back is exactly a time of the UTC years 0 and 10000 or of the first second of year 1. |
| `Manifests.EntriesForHash` | client/index/sharded.go:250-295 | Refuses a bad hash, an unreadable, unsupported or incomplete document; otherwise the matches come from a legacy index or from that prefix's shards only. |
| `Manifests.LoadEntries` | client/index/sharded.go:297-332 | Refuses an unreadable, unsupported or incomplete document and a row count that does not add up; otherwise gives every row of a legacy index or of the verified shards. |
| `Manifests.RefsSorted` | client/index/sharded.go:637-652 | The descriptors of built shards are already in manifest order. |
| `Manifests.ShardDir` | client/index/sharded.go:592-598 | A shard lies directly in its slot of the manifest's shard root, whatever the valid manifest path. |
| `Manifests.ManifestAccepted` | client/index/sharded.go:74-101 | The manifest of any set of built shards is printed if and only if its source is valid, its time is not zero and has a year in 1 to 9999 in its own zone, there are at most 4096 shards and the text is at most 1 MiB. |
| `Manifests.IndexAgreesWithScan` | client/index/sharded.go:75-332 | From the text of any manifest so printed, over its published shards: if its time reads back, looking a hash up returns exactly the sorted list filtered to the hash, and loading returns the sorted list; otherwise both refuse. |
| `StoreFmt.FencesSplit` | protocol/frontmatter.go:36-49 | Plain lines between fences come apart from any content, whatever fences that content holds. |
| `StoreFmt.TagsRoundTrip` | protocol/storefmt/meta.go:218-232 | A tag list read back is the trimmed non-empty tags joined by commas, a second trip changes nothing, and no other character appears. |
| `StoreFmt.ValidateMeta` | protocol/storefmt/meta.go:136-165 | In any visiting order, accepts exactly the metadata whose fields are valid, within the key and byte limits. |
| `StoreFmt.NormalizeIsStable` | protocol/storefmt/format.go:104-111 | Normalizing is idempotent, keeps the counted size and keeps valid metadata valid. |
| `StoreFmt.SortedKeys` | protocol/storefmt/format.go:52-57 | Whatever the iteration order of the map, the keys come out in the one ascending order. |
| `StoreFmt.WriteFields` | protocol/storefmt/format.go:58-67 | The loop writes one line per key, in order. |
| `StoreFmt.SerializeVersion` | protocol/storefmt/format.go:30-71 | Succeeds exactly for versions in range with valid metadata and, above version 1, previous bytes; the result is the canonical text. |
| `StoreFmt.ExtractMetadata` | protocol/storefmt/meta.go:167-206 | The loop over the block's lines yields the metadata of the specification, the last line for a key winning. |
| `StoreFmt.StoredField` | protocol/storefmt/stored.go:17-31 | The first line whose trimmed key matches gives the value. |
| `StoreFmt.FieldReads` | protocol/storefmt/meta.go:183-204 | A printed field reads back as its bare key with the normalized value. |
| `StoreFmt.InspectFields` | protocol/storefmt/format.go:159-180 | Accepts exactly the publisher lines with known, unaliased keys in strictly ascending order. |
| `StoreFmt.HeaderReads` | protocol/storefmt/format.go:126-157 | The header reader accepts exactly the lines that some good header prints. |
| `StoreFmt.InspectStoredVersion` | protocol/storefmt/format.go:119-185 | Accepts exactly the canonical stored versions and names the header they carry. |
| `StoreFmt.StoredVersionRoundTrip` | protocol/storefmt/format.go:30-185 | For every accepted input: the content comes back whole, the metadata normalized, the text is canonical for exactly the written header, and the previous hash reads back. |
| `StoreFmt.CanonicalFieldsRead` | protocol/storefmt/stored.go:33-43 | On canonical bytes the loose readers of the previous hash and the archived flag agree with the strict one. |
| `StoreFmt.FrontmatterFits` | protocol/storefmt/meta.go:14-16 | The frontmatter of every stored version fits in the 2048 bytes the store adds to the body limit. |
| `StoreFmt.JoinContent` | protocol/storefmt/stored.go:45-66 | Appending inserts a newline exactly where the base does not end with one, and is refused exactly past the body limit. |
| `Store.Document.Highest` | protocol/store/store.go:938-953 | The highest version number present. |
| `Store.Document.Listed` | protocol/store/store.go:983-1003 | Every version whose entry can be examined, in ascending order. |
| `Store.Document.PrepareExisting` | protocol/store/store.go:1477-1514 | Refuses an archived document and unchanged content; going on means the document is live and differs. |
| `Store.Document.CreateVersionFile` | protocol/store/store.go:1278-1301 | Never replaces a file; a failed write or sync leaves no file behind. |
| `Store.Document.SwapCurrent` | protocol/store/store.go:1303-1318 | The current link moves exactly when the rename happened, synced or not. |
| `Store.Document.PruneVersions` | protocol/store/store.go:1433-1475 | Exactly the examined versions up to the cutoff and below the first that cannot be removed are gone, and the reported range holds all of them. |
| `Store.Document.Install` | protocol/store/store.go:1396-1431 | A version the link never reached is removed again; a landed one is current, exactly the doomed versions are pruned, and the report is a failure exactly when the new file's information cannot be read. |
| `Store.Document.Write` | protocol/store/store.go:1327-1431 | What the files and the current version are after every outcome; with working steps a writable document is written; a landed write is reported as failed exactly when the new file's information cannot be read. |
| `Store.Document.WriteChecked` | protocol/store/store.go:1527-1581 | Refuses invalid requests first; a landed write is stale exactly when its version is not the expected one plus one, which takes a failed listing, and reported as failed exactly when the new file's information cannot be read. |
| `Store.Document.Append` | protocol/store/store.go:1591-1634 | A landed append writes the expected version's content joined with the new, under its metadata without retention and with the request's on top. |
| `Store.Document.Archive` | protocol/store/store.go:1052-1124 | Changes only the archive state, and only when it differs; on a valid document the outcome, unsynced and unknown ones included, is the one that the failing steps determine. |
| `Store.Document.VerifyChain` | protocol/store/store.go:1636-1688 | Reports an intact chain exactly when every listed version is canonical, names itself and hashes the listed one before it; an unreadable file comes first, then a broken link. |
| `Store.NewTextChained` | protocol/store/store.go:1372-1382 | The bytes of a new version are canonical, hash the version below and hold the content and normalized metadata. |
| `Store.CommitLinks` | protocol/store/store.go:1342-1407 | Adding a version on top of a linked document keeps it linked if and only if it is above the current one. |
| `Store.PruneLinks` | protocol/store/store.go:1433-1475 | A prune keeps the chain if and only if it will not pass over an entry it cannot examine on its way to a version it removes. |
| `Store.WriteKeepsLinked` | protocol/store/store.go:1327-1475 | A landed write keeps files consecutive, hash-linked and topped by the current one if and only if no failed listing is taken for an empty directory and its prune passes over no entry it cannot examine, both told from the state before; one that did not land always does. |
| `Store.SoundStep` | protocol/store/store.go:1327-1475 | A check on the listings alone suffices for that. |
| `Store.FirstBreak` | protocol/store/store.go:1327-1475 | Along any run, while no change that `Breaks` foretells has happened the document is linked, and after the next operation it is linked exactly when that one is not such a change either. |
| `Store.LinkedVerifies` | protocol/store/store.go:1636-1688 | A linked document passes chain verification, whatever version retention left as the oldest. |
| `Store.ChainPinsHistory` | protocol/store/store.go:1636-1688 | Without a hash collision on the bytes involved, two verified chains over the same versions that agree on the newest agree on all. |
| `Store.Run` | protocol/store/store.go:1327-1634 | Over any run of writes, appends and archive changes with failing disk steps, each stage follows from the one before by that operation; the document is linked up to the first change that `Breaks` foretells and not right after it, and with working listings there is none. |
| `Store.RunAndVerify` | protocol/store/store.go:1636-1688 | From an empty store, after any run with working listings the chain verifies, after prunes that stop part way too. |
| `Store.ListingLost` | protocol/store/store.go:938-953 | A run in which an unreadable directory makes a write land as version 1 below version 2; chain verification notices unless the new bytes hash as the pruned ones did. |
| `Store.EntrySkipped` | protocol/store/store.go:983-1003 | A run in which a successful prune leaves v1 and v3 without v2; without a collision among the three, chain verification notices. |
| `Store.StatLost` | protocol/store/store.go:1409-1412 | A run in which version 3 is current, the chain whole and nothing pruned, and the caller gets a failure. |
| `Store.GapFound` | protocol/store/store.go:1636-1688 | Without a collision, and unless the directory was taken for empty, chain verification fails after a landed write exactly when that write broke the chain. |
| `HashIndex.XorWithout` | protocol/store/store.go:399-405 | Any one fold can be taken out of the fingerprint first. |
| `HashIndex.InverseUnique` | protocol/store/store.go:271-324 | The inverse map with ascending path lists is determined by the documents. |
| `HashIndex.Index.Unindex` | protocol/store/store.go:306-324 | Removes exactly one path from the indexed documents; maps and fingerprint stay exact. |
| `HashIndex.Index.IndexPath` | protocol/store/store.go:294-304 | Sets exactly one path, replacing what was indexed for it. |
| `HashIndex.Index.LookupHash` | protocol/store/store.go:339-351 | Returns the least live path with the content; otherwise there is none, and an incomplete index is told from a miss. |
| `HashIndex.Index.UpdateHashIndex` | protocol/store/store.go:353-360 | Indexes the canonical path under the hash of the body. |
| `HashIndex.Index.RemoveHashEntry` | protocol/store/store.go:362-367 | Drops the canonical path. |
| `HashIndex.Index.BuildHashIndex` | protocol/store/store.go:274-292 | Afterwards exactly the walked documents are indexed, and a failed walk is remembered. |
| `HashIndex.Index.Fingerprint` | protocol/store/store.go:415-426 | Once the index has been built, the XOR over exactly the live documents, whatever updates led to them; nothing before. |
| `HashIndex.FingerprintMoves` | protocol/store/store.go:386-397 | A document that gets another version or body moves the fingerprint unless SHA-256 gives the same bytes for two different inputs; one that comes or goes, unless its bytes are all zero. |
| `HashIndex.WalkOrder` | protocol/store/store.go:271-292 | Two walks over the same documents in any order index the same. |
| `HashIndex.SameDocumentsSameIndex` | protocol/store/store.go:271-413 | Indexes over the same documents are equal, maps and fingerprint, whatever updates led there. |
| `Worlds.DirWatch.Add` | server/knowledgeserver/worlds.go:432-438 | Each named file's count grows by how often it is named. |
| `Worlds.DirWatch.Remove` | server/knowledgeserver/worlds.go:440-452 | The counts shrink by as much, and the watch is reported empty exactly when no file is left. |
| `Worlds.Manager.AcquireTokenWatch` | server/knowledgeserver/worlds.go:466-488 | The directory watchers count the old uses plus the new runtime's. |
| `Worlds.Manager.ReleaseTokenWatch` | server/knowledgeserver/worlds.go:490-507 | The runtime's uses are given back; a directory's last one stops its watcher. |
| `Worlds.Manager.RetireEntry` | server/knowledgeserver/worlds.go:514-526 | Exactly that runtime is closed and its watches given back. |
| `Worlds.Manager.Open` | server/knowledgeserver/worlds.go:256-336 | A world opens exactly when it is not among those that fail; then it is live with a fresh runtime, and otherwise nothing is left behind. |
| `Worlds.Manager.Mappings` | server/knowledgeserver/worlds.go:531-545 | A route for every authority of every live world and no other; or none, exactly when the router refuses an authority or one name is claimed twice, by two worlds or by one. |
| `Worlds.Manager.AddRoutes` | server/internal/snirouter/router.go:36-52 | One world's authorities come on top under their normalized names, or are refused exactly when one of them is no name or a name is taken already. |
| `Worlds.Manager.Publish` | server/knowledgeserver/worlds.go:528-564 | A publish succeeds exactly when the token coordinator agrees and the live worlds can be routed; it then routes exactly them and closes what retired, and a failed one changes nothing a request can reach. |
| `Worlds.Manager.RemoveChanged` | server/knowledgeserver/worlds.go:200-218 | Exactly the live worlds that are wanted unchanged stay. |
| `Worlds.Manager.OpenMissing` | server/knowledgeserver/worlds.go:225-242 | Kept worlds are not touched; the others are live exactly when they opened, and in dynamic mode exactly the rest are pending with their wanted configuration. |
| `Worlds.Manager.Apply` | server/knowledgeserver/worlds.go:189-254 | Afterwards exactly the wanted worlds that were live unchanged or opened are live, and in dynamic mode the other wanted ones are pending; unchanged worlds keep their runtime. It publishes exactly when that can be routed and the coordinator agrees; a failed publish leaves the routes as they were and in dynamic mode is owed. |
| `Worlds.Manager.RetryPending` | server/knowledgeserver/worlds.go:580-609 | Exactly the pending worlds that open become live. It publishes exactly when something opened or was owed, no unpublished runtime fails to reload its tokens, and the live worlds can be routed; an attempt that fails stays owed. |
| `Worlds.Manager.PublishOwed` | server/knowledgeserver/worlds.go:594-625 | Succeeds exactly when the unpublished runtimes reload their tokens and the publish goes through; until then it stays owed. |
| `Worlds.InOnePlace` | server/knowledgeserver/worlds.go:189-564 | No routed or coordinated runtime is closed; every runtime ever started is in exactly one of live, retiring and closed. |
| `Worlds.Run` | server/knowledgeserver/worlds.go:147-609 | Any sequence of configurations and retries, with any failures, keeps that. |
| `Tokens.ValidateUnique` | server/knowledgeserver/tokens.go:87-101 | Accepts exactly when every store is present and no hash is in two of them. |
| `Tokens.Coordinator.SetWorlds` | server/knowledgeserver/tokens.go:34-46 | Replaces the worlds exactly when their stores are present and share no hash. |
| `Tokens.Coordinator.ValidateWorlds` | server/knowledgeserver/tokens.go:48-56 | Decides that for candidate worlds without publishing them. |
| `Tokens.Coordinator.ValidateTransition` | server/knowledgeserver/tokens.go:103-123 | Accepts exactly when no candidate holds a hash that another world holds now. |
| `Tokens.MixedUnique` | server/knowledgeserver/tokens.go:79-83 | Old and new stores never share a hash, however far the publishing got. |
| `Tokens.TransferShares` | server/knowledgeserver/tokens.go:103-123 | Without that check a hash moved to an earlier world would be in two worlds part way. |
| `Tokens.Coordinator.PublishAll` | server/knowledgeserver/tokens.go:79-84 | After each publish the stores are the first new ones over the old; it stops at the first failure. |
| `Tokens.Coordinator.Reload` | server/knowledgeserver/tokens.go:58-85 | Every state passed through has no hash in two worlds, a failing reload's last one included; a refused reload changes nothing, and it succeeds exactly when loading, uniqueness and transition allow. |
| `Crawl.WithinRing` | client/graph/crawl.go:173-175 | Only the outermost ring can lead to new URLs. |
| `Crawl.Closed` | client/graph/crawl.go:196-219 | Once a ring is empty, more depth finds nothing more. |
| `Crawl.CrawlRun.ReserveOutput` | client/graph/crawl.go:320-327 | Room is taken exactly when it fits, and the shortage is reported otherwise. |
| `Crawl.CrawlRun.Admit` | client/graph/crawl.go:329-345 | A new URL above the depth limit is queued one level deeper, or turned away with the cap that is reached; anything else changes nothing. |
| `Crawl.CrawlRun.AdmitEdges` | client/graph/crawl.go:278-287 | Records and offers the edges in order until the output room is used up. |
| `Crawl.CrawlRun.Observe` | client/graph/crawl.go:243-296 | Adds at most one node, at the item's depth; while nothing is cut it is whole, all its links are recorded and all their targets visited; a reported cap is really reached with something left outside. |
| `Crawl.CrawlRun.FetchBatch` | client/graph/crawl.go:199-209 | Results line up with their items, and no URL is fetched that was fetched before. |
| `Crawl.CrawlRun.RunBatch` | client/graph/crawl.go:198-217 | A batch of any size keeps the level's invariant and the frontier cap; an exhausted budget drops what is queued. |
| `Crawl.ObserveKeeps` | client/graph/crawl.go:243-296 | Observing one item keeps the level invariant: the level is the whole shell of URLs at its distance while nothing was cut. |
| `Crawl.NextLevel` | client/graph/crawl.go:196-219 | At the barrier the queue becomes exactly the next shell. |
| `Crawl.CapsJustified` | client/graph/crawl.go:329-345 | A node or frontier cap is reported only when more URLs than the cap are within the depth limit. |
| `Crawl.StillPaid` | client/graph/crawl.go:243-327 | Observing a URL adds its bytes to the two totals once, and a budget is reported only when the URLs within the depth limit together take more, or a fetch used up the transport's own. |
| `Crawl.AllFound` | client/graph/crawl.go:224-230 | When no level is left, everything within the limit has been found at its shortest distance. |
| `Crawl.FoundWithin` | client/graph/crawl.go:173-176 | However the crawl ended, what it found is within reach of the depth recorded. |
| `Crawl.Crawl` | client/graph/crawl.go:173-231 | Every crawl fetches a URL at most once, keeps the node, frontier, fetch and output caps, and gives only reasons that hold, a used-up budget included; a complete one has exactly the URLs within the depth limit, at shortest distance, whole, with exactly their links, whatever the number of workers. |
| `Adjacency.CountEnds` | client/graphstore/store.go:397-402 | The count of an endpoint is its number of edges, for exactly the endpoints that occur. |
| `Adjacency.Carve` | client/graphstore/store.go:404-415 | In any order of the map, the windows lie side by side without overlap, each as large as its count. |
| `Adjacency.Append` | client/graphstore/store.go:416-420 | Within its capacity an append writes one cell of the slab and moves no window. |
| `Adjacency.AppendEnd` | client/graphstore/store.go:416-420 | An edge goes to one table, and the other, in its own part of the slab, is not disturbed. |
| `Adjacency.AppendEdge` | client/graphstore/store.go:416-420 | One edge goes to both tables, and neither disturbs the other. |
| `Adjacency.FillOne` | client/graphstore/store.go:416-420 | Appending an edge leaves every other window's indices as they were and extends its own by one. |
| `Adjacency.IndicesAre` | client/graphstore/store.go:396-423 | The indices of an endpoint are exactly those of its edges. |
| `Adjacency.IndicesAscend` | client/graphstore/store.go:396-423 | They are in strictly ascending order. |
| `Adjacency.FullWindows` | client/graphstore/store.go:396-423 | In the end every window is exactly full. |
| `Adjacency.Store.RebuildAdjacency` | client/graphstore/store.go:396-423 | Both tables hold exactly the ascending indices of the edges with each endpoint, in one slab of twice as many cells as there are edges. |
| `Neighborhood.VisitEdges` | client/graphstore/neighborhood.go:285-306 | Every matching edge is visited exactly once, a self-loop too. |
| `Neighborhood.PassesVisitOnce` | client/graphstore/neighborhood.go:285-306 | The incoming and the outgoing pass together reach each matching edge once. |
| `Neighborhood.InsertSmallest` | client/graphstore/neighborhood.go:222-240 | Bounded insertion keeps exactly the smallest names. |
| `Neighborhood.PageURLs` | client/graphstore/neighborhood.go:211-244 | One pass counts all distinct neighbours and keeps exactly the page size plus one smallest after the cursor. |
| `Neighborhood.CutPage` | client/graphstore/neighborhood.go:244-250 | Cutting the extra one keeps the page's smallest and tells whether there are more. |
| `Neighborhood.MakeRow` | client/graphstore/neighborhood.go:251-283 | A row has the neighbour's stored node or a bare one, its first edges in order, each counted at least once and with its source's node, and the number left out. |
| `Neighborhood.NeighborhoodPage` | client/graphstore/neighborhood.go:211-283 | A page has the smallest neighbours after its position, the total count, and a next position exactly when more follow. |
| `Neighborhood.Neighborhood` | client/graphstore/neighborhood.go:74-140 | A request is refused exactly for its direction, its page size, or a cursor that is too long, unreadable or another query's; otherwise it gets the page at the cursor's position and the cursor after it. |
| `Neighborhood.NextPage` | client/graphstore/neighborhood.go:74-93 | Each page moves the position past exactly its rows, or completes the list. |
| `Neighborhood.AllPages` | client/graphstore/neighborhood.go:59-93 | Following the cursor terminates and lists every neighbour exactly once in URL order, with the same total on every page, if and only if no page but the last ends at a URL whose cursor is longer than a request may carry; otherwise it stops there. |
| `Neighborhood.CursorLimit` | client/graphstore/neighborhood.go:182-209 | That is a URL of more than 689 bytes as JSON. |
| `Neighborhood.LongUrlStuck` | client/graphstore/neighborhood.go:186-188 | Two documents link to one, and the second is never listed. |
| `Snapshot.ShardGrows` | client/graphstore/snapshot.go:423-459 | More rows never make a shard smaller: the digits of the counts and the row list only grow. |
| `Snapshot.FitsDown` | client/graphstore/snapshot.go:349-384 | What fits still fits with fewer rows. |
| `Snapshot.LargestShard` | client/graphstore/snapshot.go:349-421 | Doubling then bisection finds the one end such that runs fit exactly up to it; failure means a bad row or a first row that does not fit. |
| `Snapshot.BuildKind` | client/graphstore/snapshot.go:321-347 | The shards of one kind are numbered from zero, tile the rows, stay within the target and are each maximal. |
| `Snapshot.Prepare` | client/graphstore/snapshot.go:197-232 | Rows come out canonical, or are refused exactly for an invalid URL or two rows with one canonical key. |
| `Snapshot.BuildSnapshotShards` | client/graphstore/snapshot.go:183-242 | Node shards, then edge shards, that concatenate to the sorted canonical rows and hold each of them; a refusal is for the path, slot, target or row limits, bad rows, a row that fits nowhere, or more shards than a manifest may list. |
| `Text.AtoiItoa` | client/index/sharded.go:747-761 | A printed number reads back. |
| `Sha256.ContentHashShape` | protocol/storefmt/stored.go:12-15 | A content hash has the one spelling its readers accept. |

## Left out

- QUIC, TLS, sockets, timeouts and back-off durations: a timeout is a cut, a refusal or a lost answer, and how often and how long to retry is a free choice.
- The coalesce mode of WATCH, and more than one consumer of a watch.
- `Client.Close` and the request retry loop around the pool.
- Pruning of versions on the server a generation is published to: its versions are immutable and stay.
- The manifest of a graph snapshot and the reading of its shards. The legacy single-document hash index is read by an uninterpreted function, and of a time's text only its leading year and the UTC form that manifests print are spelled out. A zone is one offset from UTC per time, not a table of rules.
- Markdown, YAML, TOML and URL parsing: link extraction, canonical URLs and server-address checks are uninterpreted functions, and a snapshot row's JSON is an opaque string.
- Store: two writers at once, a crash in the middle of a step, cleanup removals that fail, symbolic-link containment, directory creation, the write check hook, import and the legacy layout.
- Store: the hash index is a component of its own; that a landed write updates it is not part of the document's model.
- Store: bytes that are not UTF-8; text is made of characters, so `ValidateBody` accepts everything here.
- `SetArchived`, which rewrites the legacy flag and is no longer used by the store's own operations.
- The walk that feeds the hash index: which files it skips is its caller's list.
- World runtimes: how one opens, polls and drains; `Close` of the manager. Which worlds fail to open is a parameter, and which authorities the router takes, and under which name, is an uninterpreted function.
- The wall-clock labels of crawl observations, titles and rejected relations; the text of errors.
- Neighbourhood queries: JSON and base64 as text; a cursor is what it decodes to and its length, and the JSON that identifies a query is an uninterpreted function. URLs are made of characters: one with bytes that are not UTF-8 would come back from a cursor as another string, and neighbours could be skipped.
- Merge.ChunkEnd: is stated on hunk lists and not on the loop; `Merge.Absorb` connects the two.
