# Dirty-page tracking VFS, modelled in Dafny

The native part of SQLiteNET.Opfs wraps SQLite's in-memory VFS in a
"tracking" VFS. Every successful write or truncate through that VFS
records which pages of the database file changed. The OPFS persistence
layer can then ask for exactly those pages, copy them out, and reset the
record. This project models that wrapper, `vfs_tracking.c` with its
header `vfs_tracking.h`, and proves properties of the model.

The model has four layers. Each is a Dafny module in its own file.

- `DirtyBitmap` (`dirty_bitmap.dfy`) holds the bitmap of one file as a value.
  - `Bitmap` is the word array plus `totalPages`. `Dirty` is the set of
    pages it stands for.
  - `Mark`, `Grow` and `Clear` say what marking, growing and resetting do.
    `CountSet` and `DirtyList` say what the two listing loops compute.
  - The lemmas say what these operations mean for the dirty set: exact
    ranges, monotone growth, kept bits, idempotence and sorted listing.
  - Each `uint32_t` word is modelled as its 32 bits, a sequence of 32
    booleans. Bit k of word w is page `32 * w + k`. `w & (1U << k)` reads
    entry k, and `w |= 1U << k` sets it.
- `Tracker` (`tracker.dfy`) holds the `FileTracker` record as a class with
  mutable fields.
  - `MarkDirty` is `vfs_tracking_mark_dirty`, with its growth step and its
    OR loop.
  - `DirtyPagesOf` is the counting loop and the filling loop of
    `vfs_tracking_get_dirty_pages`.
  - `ClearBits` is the `memset` of the reset.
  - Each method is proved against the functions of `DirtyBitmap`.
- `TrackingFiles` (`tracking_file.dfy`) holds the `TrackingFile` handle and
  the twelve methods of `trackingIoMethods`.
- `TrackingVfs` (`tracking_vfs.dfy`) holds `g_state` together with the
  tracking VFS record as one class, `TrackingState`. It has init,
  shutdown, the tracker registry, the two entry points used by the host,
  and the four VFS methods.

The base VFS and the real files behind the tracking objects live in
`backend.dfy`. Each is an oracle object. Its answer to a call is an
arbitrary function of the calls it has seen, and it logs every call. So
the model can state that each tracking method forwards its call exactly
once, with the same arguments, and returns the answer unchanged.

Wherever the C code allocates, the model takes a boolean parameter that
decides whether the allocation succeeds: `calloc` of a tracker, `realloc`
of the bitmap and `malloc` of the result array.

Result codes and the widths of the C integer types live in `sqlite.dfy`.
`scenarios.dfy` states what short call sequences produce over a base VFS
and real files whose every call succeeds.

- Three of them work on a tracker alone: a mark or a reset, then the listing.
- `WriteThroughVfs` goes through init, open, the tracking file's write and
  the registry's query. `OpenThenLookUp` goes through init, open and the
  registry's lookup.
- `ResetThenQuery` holds for every valid registry state.

Behaviour worth knowing:

- `vfs_tracking_init` reports a missing base VFS with `SQLITE_ERROR`
  (vfs_tracking.c:105-108).
- A failed registration leaves `pRealVfs` set. A second init therefore
  returns `SQLITE_OK` without registering; `TrackingState.Init` states this.
- An empty file name is not rejected. It gets a tracker under the empty
  name; only NULL is refused.
- Querying or resetting a name that has no tracker creates an empty one.

## Model

| member | source | states |
|---|---|---|
| DirtyBitmap.WordsFor | SQLiteNET.Opfs/Native/src/vfs_tracking.c:249 | the word count is the least number of 32-bit words that holds `pages` bits |
| DirtyBitmap.WordsForMonotone | SQLiteNET.Opfs/Native/src/vfs_tracking.c:246-251 | more required pages never need fewer words, so growth never shrinks the array |
| DirtyBitmap.Zeros | SQLiteNET.Opfs/Native/src/vfs_tracking.c:265-266 | zero-filled words hold no set page |
| DirtyBitmap.SetPage | SQLiteNET.Opfs/Native/src/vfs_tracking.c:278-280 | one step of the OR loop sets page p and leaves every other page's bit as it was |
| DirtyBitmap.SetPages | SQLiteNET.Opfs/Native/src/vfs_tracking.c:276-281 | after the loop, a page is set exactly when it was set before or lies in the range |
| DirtyBitmap.SetPagesAlreadySet | SQLiteNET.Opfs/Native/src/vfs_tracking.c:276-281 | setting pages that are all set already leaves the words identical |
| DirtyBitmap.PagesOfByteRange | SQLiteNET.Opfs/Native/src/vfs_tracking.c:242-243 | the pages from `offset / pageSize` to `(offset + amount - 1) / pageSize` are exactly the pages holding a byte of `[offset, offset + amount)` |
| DirtyBitmap.PageHoldsByte | SQLiteNET.Opfs/Native/src/vfs_tracking.c:242-243 | every page of that span holds some byte of the range |
| DirtyBitmap.Extend | SQLiteNET.Opfs/Native/src/vfs_tracking.c:253-267 | realloc plus zero-fill keeps every old bit and adds only clear ones |
| DirtyBitmap.Grow | SQLiteNET.Opfs/Native/src/vfs_tracking.c:246-273 | growth fails exactly when more words are needed and the allocation is refused; otherwise it gives a well-formed bitmap of `max(totalPages, requiredPages)` pages with exactly the old bits |
| DirtyBitmap.Mark | SQLiteNET.Opfs/Native/src/vfs_tracking.c:232-282 | marking keeps the bitmap invariant: word count `(totalPages + 31) / 32` and no bit at or beyond `totalPages` |
| DirtyBitmap.MarkSteps | SQLiteNET.Opfs/Native/src/vfs_tracking.c:242-281 | marking is: grow to `endPage + 1` pages, then set pages `startPage .. endPage`, all inside the grown array, with `0 <= startPage <= endPage < UINT32_MAX` |
| DirtyBitmap.MarkDirtyPages | SQLiteNET.Opfs/Native/src/vfs_tracking.c:236-281 | a failed growth changes nothing; otherwise totalPages becomes `max(totalPages, endPage + 1)`, the word count only grows, old bits are kept, new words hold only the range, and the dirty set gains exactly the range |
| DirtyBitmap.MarkNothing | SQLiteNET.Opfs/Native/src/vfs_tracking.c:236-239 | a non-positive amount changes nothing |
| DirtyBitmap.MarkIdempotent | SQLiteNET.Opfs/Native/src/vfs_tracking.c:246-281 | once a mark has got its memory, marking the same range again gives the same bitmap, whatever the second allocation would do |
| DirtyBitmap.TruncateMarksOnePage | SQLiteNET.Opfs/Native/src/vfs_tracking.c:485-490 | marking one byte at `size` adds exactly page `size / pageSize` to the dirty set |
| DirtyBitmap.Clear | SQLiteNET.Opfs/Native/src/vfs_tracking.c:372 | the reset keeps the word count and totalPages, and leaves a well-formed bitmap with no dirty page |
| DirtyBitmap.CountSetIsCardinality | SQLiteNET.Opfs/Native/src/vfs_tracking.c:307-316 | the counting loop's result is the number of dirty pages |
| DirtyBitmap.CountSetPositive | SQLiteNET.Opfs/Native/src/vfs_tracking.c:318-323 | the count is zero exactly when no page below totalPages is set |
| DirtyBitmap.CountSetMonotone | SQLiteNET.Opfs/Native/src/vfs_tracking.c:333-343 | the count up to a page never exceeds the full count, so the fill loop stays inside the array |
| DirtyBitmap.DirtyList | SQLiteNET.Opfs/Native/src/vfs_tracking.c:333-343 | the list the fill loop writes has as many entries as the count loop counted |
| DirtyBitmap.DirtyListMembers | SQLiteNET.Opfs/Native/src/vfs_tracking.c:333-343 | the list holds exactly the set pages below totalPages |
| DirtyBitmap.DirtyListSorted | SQLiteNET.Opfs/Native/src/vfs_tracking.c:333-343 | the list is strictly ascending and every entry is below totalPages |
| DirtyBitmap.IncreasingListUnique | SQLiteNET.Opfs/Native/src/vfs_tracking.h:63-71 | a strictly ascending list is determined by its set of entries, so the listing of a dirty set is unique |
| DirtyBitmap.NewBitmapSizeAsWrittenTooSmall | SQLiteNET.Opfs/Native/src/vfs_tracking.c:249 | in uint32_t, for the 31 largest page counts the computed word count holds fewer bits than required |
| DirtyBitmap.NewBitmapSizeAsWrittenAgrees | SQLiteNET.Opfs/Native/src/vfs_tracking.c:249 | below that range the uint32_t expression equals the word count `WordsFor` |
| Tracker.FileTracker.constructor | SQLiteNET.Opfs/Native/src/vfs_tracking.c:209-220 | a new tracker has its name and page size, no bitmap, zero pages, is not open, and has no dirty page |
| Tracker.FileTracker.EnsurePages | SQLiteNET.Opfs/Native/src/vfs_tracking.c:246-273 | the growth step leaves the tracker equal to `Grow` of its old bitmap, or unchanged when the reallocation fails |
| Tracker.FileTracker.SetPageRange | SQLiteNET.Opfs/Native/src/vfs_tracking.c:276-281 | the OR loop leaves the words equal to `SetPages` of the old words, with totalPages and isOpen unchanged |
| Tracker.FileTracker.ClearBits | SQLiteNET.Opfs/Native/src/vfs_tracking.c:372 | the memset leaves the tracker equal to `Clear` of its old bitmap, with no dirty page |
| Tracker.MarkDirty | SQLiteNET.Opfs/Native/src/vfs_tracking.c:232-282 | after the call the tracker's bitmap is `Mark` of the old one, well-formed, with isOpen unchanged; a null tracker changes nothing |
| Tracker.CountDirty | SQLiteNET.Opfs/Native/src/vfs_tracking.c:307-316 | the counting loop returns the number of set pages below totalPages |
| Tracker.FillDirty | SQLiteNET.Opfs/Native/src/vfs_tracking.c:332-343 | the filling loop leaves the array holding the ascending list of set pages |
| Tracker.DirtyPagesOf | SQLiteNET.Opfs/Native/src/vfs_tracking.c:298-346 | no tracker, no bitmap or no dirty page gives OK, count 0 and NULL; a refused allocation gives SQLITE_NOMEM and writes nothing; otherwise a fresh array of exactly the dirty pages, strictly ascending, with its length as the count |
| TrackingFiles.TrackingFile.constructor | SQLiteNET.Opfs/Native/src/vfs_tracking.c:84-88 | a handle starts over its real file with no tracker and without tracking methods |
| TrackingFiles.TrackingFile.Close | SQLiteNET.Opfs/Native/src/vfs_tracking.c:444-455 | the close is forwarded once and its code returned; the tracker is marked not open whatever the code, and its bitmap is kept |
| TrackingFiles.TrackingFile.Read | SQLiteNET.Opfs/Native/src/vfs_tracking.c:457-461 | the read is forwarded once with its amount and offset, and its code returned |
| TrackingFiles.TrackingFile.Write | SQLiteNET.Opfs/Native/src/vfs_tracking.c:463-478 | the write is forwarded once and its code returned; the tracker's bitmap becomes `Mark` of the range only when that code is SQLITE_OK, and is unchanged otherwise |
| TrackingFiles.TrackingFile.Truncate | SQLiteNET.Opfs/Native/src/vfs_tracking.c:480-493 | the truncate is forwarded once and its code returned; only on SQLITE_OK is the one byte at `size` marked |
| TrackingFiles.TrackingFile.Sync | SQLiteNET.Opfs/Native/src/vfs_tracking.c:495-499 | pass-through of xSync with its flags |
| TrackingFiles.TrackingFile.FileSize | SQLiteNET.Opfs/Native/src/vfs_tracking.c:501-505 | pass-through of xFileSize |
| TrackingFiles.TrackingFile.Lock | SQLiteNET.Opfs/Native/src/vfs_tracking.c:507-511 | pass-through of xLock with its level |
| TrackingFiles.TrackingFile.Unlock | SQLiteNET.Opfs/Native/src/vfs_tracking.c:513-517 | pass-through of xUnlock with its level |
| TrackingFiles.TrackingFile.CheckReservedLock | SQLiteNET.Opfs/Native/src/vfs_tracking.c:519-523 | pass-through of xCheckReservedLock |
| TrackingFiles.TrackingFile.FileControl | SQLiteNET.Opfs/Native/src/vfs_tracking.c:525-529 | pass-through of xFileControl with its opcode |
| TrackingFiles.TrackingFile.SectorSize | SQLiteNET.Opfs/Native/src/vfs_tracking.c:531-535 | pass-through of xSectorSize |
| TrackingFiles.TrackingFile.DeviceCharacteristics | SQLiteNET.Opfs/Native/src/vfs_tracking.c:537-541 | pass-through of xDeviceCharacteristics |
| TrackingVfs.NormalizeStripsOneSlash | SQLiteNET.Opfs/Native/src/vfs_tracking.c:195 | exactly one leading '/' is dropped, and a name without one is kept |
| TrackingVfs.NormalizeIdentifies | SQLiteNET.Opfs/Native/src/vfs_tracking.c:195-206 | `"/x"` and `"x"` are looked up under the same name, `"//x"` and `"x"` are not |
| TrackingVfs.TrackingState.constructor | SQLiteNET.Opfs/Native/src/vfs_tracking.c:12 | the zero-initialised state: no trackers, no base VFS, page size 0, not registered |
| TrackingVfs.TrackingState.Init | SQLiteNET.Opfs/Native/src/vfs_tracking.c:93-146 | once initialised it returns OK and changes nothing; a missing base VFS gives SQLITE_ERROR and no change; otherwise the list is emptied, the page size is the given one or 4096 for 0, and the registration code is returned |
| TrackingVfs.TrackingState.Shutdown | SQLiteNET.Opfs/Native/src/vfs_tracking.c:151-179 | no tracker, no base VFS and not registered afterwards; the default page size is kept |
| TrackingVfs.TrackingState.FindTracker | SQLiteNET.Opfs/Native/src/vfs_tracking.c:197-206 | the search returns a listed tracker with exactly that name, and NULL exactly when no tracker has it |
| TrackingVfs.TrackingState.GetFile | SQLiteNET.Opfs/Native/src/vfs_tracking.c:184-227 | NULL for a NULL name; the existing tracker of the normalised name, with nothing changed; else a fresh empty tracker with the default page size prepended to the list, or NULL with nothing changed if allocation fails; names stay unique |
| TrackingVfs.TrackingState.GetDirtyPages | SQLiteNET.Opfs/Native/src/vfs_tracking.c:287-351 | SQLITE_ERROR for a NULL argument; otherwise the tracker is obtained as by GetFile (a created one is empty and not open), and the result is OK with the ascending dirty pages and their count, or count 0 and NULL when none, or SQLITE_NOMEM without output |
| TrackingVfs.TrackingState.ResetDirty | SQLiteNET.Opfs/Native/src/vfs_tracking.c:356-377 | SQLITE_ERROR for NULL; otherwise OK; the tracker is obtained as by GetFile (a created one is empty and not open) and cleared with its sizes kept, and no other tracker changes |
| TrackingVfs.TrackingState.OpenTracker | SQLiteNET.Opfs/Native/src/vfs_tracking.c:403-411 | the tracker of the name is obtained as by GetFile and marked open, with no bitmap changed |
| TrackingVfs.TrackingState.Open | SQLiteNET.Opfs/Native/src/vfs_tracking.c:382-420 | the open is forwarded once and its code returned; only on SQLITE_OK are the methods installed and the name's tracker attached and marked open (none for a NULL name); on failure the handle, the list and every tracker's bitmap and open flag are unchanged |
| TrackingVfs.TrackingState.Delete | SQLiteNET.Opfs/Native/src/vfs_tracking.c:424-428 | pass-through of xDelete to the base VFS |
| TrackingVfs.TrackingState.Access | SQLiteNET.Opfs/Native/src/vfs_tracking.c:430-434 | pass-through of xAccess to the base VFS |
| TrackingVfs.TrackingState.FullPathname | SQLiteNET.Opfs/Native/src/vfs_tracking.c:436-440 | pass-through of xFullPathname to the base VFS |
| Scenarios.WriteInsidePage | SQLiteNET.Opfs/Native/src/vfs_tracking.c:242-243 | with page size 4096, 10 bytes at offset 0 are listed as page [0] |
| Scenarios.WriteAcrossPages | SQLiteNET.Opfs/Native/src/vfs_tracking.c:242-243 | with page size 4096, 20 bytes at offset 4090 are listed as pages [0, 1] |
| Scenarios.WriteResetList | SQLiteNET.Opfs/Native/src/vfs_tracking.c:318-323 | after a write and a reset the listing gives OK, count 0 and no array |
| Scenarios.ResetThenQuery | SQLiteNET.Opfs/Native/src/vfs_tracking.h:73-80 | in every state, resetting a name and then querying it gives OK, count 0 and no array |
| Scenarios.WriteThroughVfs | SQLiteNET.Opfs/Native/src/vfs_tracking.c:463-478 | after init, an open of "db.sqlite", and a 10-byte write at offset 0 through the tracking file, the registry's query of "db.sqlite" lists page [0] |
| Scenarios.OpenThenLookUp | SQLiteNET.Opfs/Native/src/vfs_tracking.c:398-411 | a database opened as "/db.sqlite" and looked up as "db.sqlite" reaches the same tracker, which is open |

## Left out

- Logging through `printf` and `fprintf` is side output only.
- `sqlite3_vfs_find`, `sqlite3_vfs_register` and `sqlite3_vfs_unregister` are SQLite's own code. Init takes what find returns and what register returns as parameters. Unregistering is the `registered` flag.
- The copying of function pointers, `szOsFile` and `mxPathname` into the tracking VFS record is struct layout, not behaviour, and so is `p->pReal = &p[1]`.
- The out-parameters and buffers of the forwarded calls, such as `pOutFlags`, `pResOut`, `pSize`, `zOut` and the read and write buffers, belong to the real VFS. Only result codes are modelled.
- Memory management is not modelled.
  - A `strdup` failure, which leaves a tracker with a NULL name, is not modelled.
  - The `free` loop of shutdown is modelled as emptying the list.
  - A tracker that an open file still points to after shutdown stays usable in the model, while in C it is freed.
- Tracker.MarkDirty: requires `RangeFits` (offset >= 0, no int64 overflow, endPage < UINT32_MAX) instead of modelling the truncating `uint32_t` casts. It also requires `pageSize > 0`, since a tracker made before init has page size 0 and would divide by zero. For endPage == UINT32_MAX the C loop would never end. `RangeFits` admits required page counts up to UINT32_MAX, and for the 31 largest of them `Mark` sizes the array with the corrected `WordsFor` rather than the wrapping expression of vfs_tracking.c:249 (see the row under "## Findings").
- TrackingFiles.TrackingFile.Write: requires `RangeFits` of the written range, for the same reason.
- TrackingFiles.TrackingFile.Truncate: requires `RangeFits(size, 1, pageSize)`, for the same reason.
- Tracker.DirtyPagesOf: the byte size `dirtyCount * sizeof(uint32_t)` is not modelled. On a 32-bit `size_t` it wraps for counts from 2^30 upward.
- TrackingVfs.TrackingState.Open: after a failed real open the model keeps the handle's previous tracker. C leaves `pTracker` unset, and SQLite does not use the handle.
- Names are modelled as character sequences without the terminating NUL. `strcmp` is sequence equality.
- The bitmap array is modelled as a sequence value. `realloc` becomes appending words, with no aliasing of the old buffer.
- Concurrency is not modelled, since the wrapper is single-threaded.

## Findings

| source | as written | input that shows it | evidently intended | confidence | as-written member | corrected member |
|---|---|---|---|---|---|---|
| SQLiteNET.Opfs/Native/src/vfs_tracking.c:249 | `newBitmapSize = (requiredPages + 31) / 32` in `uint32_t`, so the sum wraps | a write whose last byte lies on page 2^32 - 32: requiredPages = 4294967265, the sum wraps to 0 and newBitmapSize = 0. The array is not grown, totalPages is raised, and the marking loop writes past the array | newBitmapSize = ceil(requiredPages / 32), computed without wrap-around | high, not executed | DirtyBitmap.NewBitmapSizeAsWrittenTooSmall | DirtyBitmap.WordsFor |
