/**
 * Properties of short call sequences over a base VFS and real files whose
 * every call succeeds.  Three of them state what the tracker alone lists
 * after a mark or a reset; `WriteThroughVfs` and `OpenThenLookUp` go
 * through init, open, the tracking file's write and the registry's
 * lookups; `ResetThenQuery` holds for every valid registry state.
 */
module Scenarios {
  import opened Sqlite
  import opened DirtyBitmap
  import opened Backend
  import opened Tracker
  import opened TrackingFiles
  import opened TrackingVfs

  /** A strictly increasing list holding exactly the pages of `dirty` is the sorted list of `dirty`. */
  lemma ListedIs(listed: seq<nat>, dirty: set<nat>, sorted: seq<nat>)
    requires StrictlyIncreasing(listed) && StrictlyIncreasing(sorted)
    requires forall p: nat :: p in listed <==> p in dirty
    requires forall p: nat :: p in sorted <==> p in dirty
    ensures listed == sorted
  {
    IncreasingListUnique(listed, sorted);
  }

  /** With page size 4096, a 10-byte write at offset 0 dirties page 0 alone. */
  method WriteInsidePage() returns (listed: seq<nat>)
    ensures listed == [0]
  {
    var tracker := new FileTracker("db.sqlite", 4096);
    ghost var empty := tracker.View();
    MarkDirty(tracker, 0, 10, true);
    MarkDirtyPages(empty, 0, 10, 4096, true);
    assert tracker.DirtyPages() == {0};
    var rc, written, count, pages := DirtyPagesOf(tracker, true);
    listed := pages[..];
    ListedIs(listed, {0}, [0]);
  }

  /** With page size 4096, a 20-byte write at offset 4090 straddles pages 0 and 1. */
  method WriteAcrossPages() returns (listed: seq<nat>)
    ensures listed == [0, 1]
  {
    var tracker := new FileTracker("db.sqlite", 4096);
    ghost var empty := tracker.View();
    MarkDirty(tracker, 4090, 20, true);
    MarkDirtyPages(empty, 4090, 20, 4096, true);
    assert tracker.DirtyPages() == {0, 1};
    var rc, written, count, pages := DirtyPagesOf(tracker, true);
    listed := pages[..];
    ListedIs(listed, {0, 1}, [0, 1]);
  }

  /** After a write and a reset, the listing reports no page and no array. */
  method WriteResetList() returns (rc: int, count: nat, noArray: bool)
    ensures rc == SqliteOk && count == 0 && noArray
  {
    var tracker := new FileTracker("db.sqlite", 4096);
    MarkDirty(tracker, 8192, 100, true);
    tracker.ClearBits();
    var written, pages;
    rc, written, count, pages := DirtyPagesOf(tracker, true);
    noArray := pages == null;
  }

  /**
   * SQLite opens "/db.sqlite" through the tracking VFS; the host's query
   * for "db.sqlite" reaches the very tracker attached to the open file.
   */
  method OpenThenLookUp() returns (same: bool)
    ensures same
  {
    var baseVfs := new RealVfs((log, c) => SqliteOk);
    var state := new TrackingState();
    var rc := state.Init(baseVfs, 0, SqliteOk);
    var realFile := new RealFile((log, c) => SqliteOk);
    var file := new TrackingFile(realFile);
    rc := state.Open(file, Some("/db.sqlite"), 0, true);
    NormalizeStripsOneSlash("db.sqlite");
    var found := state.GetFile(Some("db.sqlite"), true);
    same := found != null && found == file.tracker && found.isOpen;
  }

  /** Init over an always-succeeding base VFS, then open "db.sqlite" through the tracking VFS. */
  method OpenDatabase() returns (state: TrackingState, file: TrackingFile)
    ensures state.Valid() && file.Valid() && file.tracker != null
    ensures state.files == [file.tracker] && state.defaultPageSize == 4096
    ensures file.tracker.filename == "db.sqlite" && file.tracker.View() == Bitmap([], 0)
    ensures fresh(state) && fresh(file.realFile) && fresh(file.tracker) && file.tracker.pageSize == 4096
    ensures forall log, c :: file.realFile.respond(log, c) == SqliteOk
  {
    var baseVfs := new RealVfs((log, c) => SqliteOk);
    state := new TrackingState();
    var rc := state.Init(baseVfs, 0, SqliteOk);
    var realFile := new RealFile((log, c) => SqliteOk);
    file := new TrackingFile(realFile);
    NormalizeStripsOneSlash("db.sqlite");
    rc := state.Open(file, Some("db.sqlite"), 0, true);
  }

  /** Marking 10 bytes at offset 0 of an empty bitmap with page size 4096 dirties page 0 alone. */
  lemma FirstBytesDirtyFirstPage()
    ensures WellFormed(Mark(Bitmap([], 0), 0, 10, 4096, true))
    ensures Dirty(Mark(Bitmap([], 0), 0, 10, 4096, true)) == {0}
  {
    assert WellFormed(Bitmap([], 0)) by {
      assert SetBelow([], 0) == {};
    }
    MarkDirtyPages(Bitmap([], 0), 0, 10, 4096, true);
  }

  /** A registry holding one tracker, dirty on page 0 alone, lists "db.sqlite" as [0]. */
  method ListDatabase(state: TrackingState) returns (listed: seq<nat>)
    requires state.Valid() && |state.files| == 1
    requires state.files[0].filename == "db.sqlite" && state.files[0].DirtyPages() == {0}
    modifies state
    ensures listed == [0]
  {
    var rc, written, count, pages;
    ghost var queried;
    assert state.Tracked("db.sqlite");
    rc, written, count, pages, queried := state.GetDirtyPages(Some("db.sqlite"), true, true, true);
    listed := pages[..];
    ListedIs(listed, {0}, [0]);
  }

  /**
   * Through the whole stack: open "db.sqlite", write 10 bytes at offset 0
   * through the tracking file, and ask the registry for the file's dirty
   * pages: the answer is page 0.
   */
  method WriteThroughVfs() returns (listed: seq<nat>)
    ensures listed == [0]
  {
    var state, file := OpenDatabase();
    var tracker := file.tracker;
    var rc := file.Write(10, 0, true);
    FirstBytesDirtyFirstPage();
    listed := ListDatabase(state);
  }

  /**
   * In any state, resetting a name and then querying it lists no page,
   * whether or not the name had a tracker before.
   */
  method ResetThenQuery(state: TrackingState, name: string) returns (rc: int, count: nat, pages: array?<nat>)
    requires state.Valid()
    modifies state, state.files
    ensures rc == SqliteOk && count == 0 && pages == null
  {
    var written;
    ghost var reset, queried;
    rc, reset := state.ResetDirty(Some(name), true);
    ghost var i :| 0 <= i < |state.files| && state.files[i] == reset;
    assert state.Tracked(Normalize(name));
    rc, written, count, pages, queried := state.GetDirtyPages(Some(name), true, true, true);

  }
}
