/**
 * The `FileTracker` record of one database file and the three operations on
 * its bitmap: marking a written byte range (`vfs_tracking_mark_dirty`),
 * listing the dirty pages (the body of `vfs_tracking_get_dirty_pages` once
 * the tracker is found) and clearing (the `memset` of
 * `vfs_tracking_reset_dirty`).
 *
 * Each method is proved against the value-level specification in
 * DirtyBitmap: the tracker's `View()` after the call is `Mark` or `Clear`
 * of its `View()` before it, and the listing is `DirtyList`.
 */
module Tracker {
  import opened Sqlite
  import opened DirtyBitmap

  /** `DEFAULT_PAGE_SIZE`: the page size used when init is given 0. */
  const DefaultPageSize: u32 := 4096

  /**
   * One tracked database file.  `dirtyBitmap` is the word array; its length
   * is `bitmapSize`, and an empty array stands for the NULL pointer (the
   * array is allocated exactly when it first needs a word).  The `next`
   * link of the C record is the tracker's position in the registry's list.
   */
  class FileTracker {
    const filename: string
    const pageSize: u32
    var dirtyBitmap: seq<Word>
    var totalPages: nat
    var isOpen: bool

    /** The bitmap as a value. */
    function View(): (b: Bitmap)
      reads this
    {
      Bitmap(dirtyBitmap, totalPages)
    }

    /** `totalPages` fits in 32 bits, `bitmapSize == (totalPages + 31) / 32`, no bit beyond `totalPages`. */
    ghost predicate Valid()
      reads this
    {
      WellFormed(View())
    }

    /** The pages this tracker records as written since the last reset. */
    ghost function DirtyPages(): set<nat>
      reads this
      requires Valid()
    {
      Dirty(View())
    }

    /** What `vfs_tracking_get_file` fills into a fresh record. */
    constructor (filename: string, pageSize: u32)
      ensures this.filename == filename && this.pageSize == pageSize
      ensures dirtyBitmap == [] && totalPages == 0 && !isOpen
      ensures Valid() && DirtyPages() == {}
    {
      this.filename := filename;
      this.pageSize := pageSize;
      dirtyBitmap := [];
      totalPages := 0;
      isOpen := false;
      new;
      assert SetBelow([], 0) == {};
    }

    /**
     * The "ensure bitmap is large enough" step of the marking: raise
     * `totalPages` to `requiredPages`, reallocating to
     * `(requiredPages + 31) / 32` words when more are needed.  A failed
     * reallocation (`allocOk` false) leaves everything as it was.
     */
    method EnsurePages(requiredPages: nat, allocOk: bool) returns (grown: bool)
      requires Valid() && requiredPages < U32Limit
      modifies this
      ensures grown <==> Grow(old(View()), requiredPages, allocOk).Some?
      ensures grown ==> View() == Grow(old(View()), requiredPages, allocOk).value
      ensures !grown ==> View() == old(View())
      ensures Valid() && isOpen == old(isOpen)
    {
      if requiredPages > totalPages {
        var newBitmapSize := WordsFor(requiredPages);
        if newBitmapSize > |dirtyBitmap| {
          if !allocOk {
            return false;
          }
          dirtyBitmap := dirtyBitmap + Zeros(newBitmapSize - |dirtyBitmap|);
        }
        totalPages := requiredPages;
      }
      return true;
    }

    /** The marking loop: set the bit of every page from `startPage` to `endPage`. */
    method SetPageRange(startPage: nat, endPage: nat)
      requires startPage <= endPage + 1 && endPage < 32 * |dirtyBitmap|
      modifies this
      ensures dirtyBitmap == SetPages(old(dirtyBitmap), startPage, endPage + 1)
      ensures totalPages == old(totalPages) && isOpen == old(isOpen)
    {
      ghost var initial := dirtyBitmap;
      var i := startPage;
      while i <= endPage
        invariant startPage <= i <= endPage + 1
        invariant totalPages == old(totalPages) && isOpen == old(isOpen)
        invariant dirtyBitmap == SetPages(initial, startPage, i)
      {
        var wordIndex := i / 32;
        var bitIndex := i % 32;
        dirtyBitmap := dirtyBitmap[wordIndex := dirtyBitmap[wordIndex][bitIndex := true]];
        i := i + 1;
      }
    }

    /** The `memset` of the reset: every word zero, `bitmapSize` and `totalPages` kept. */
    method ClearBits()
      requires Valid()
      modifies this
      ensures View() == Clear(old(View()))
      ensures Valid() && DirtyPages() == {}
      ensures isOpen == old(isOpen)
    {
      dirtyBitmap := Zeros(|dirtyBitmap|);
    }
  }

  /**
   * `vfs_tracking_mark_dirty(tracker, offset, amount)`.  A null tracker or a
   * non-positive amount changes nothing; otherwise the bitmap is grown to
   * cover `endPage + 1` pages (nothing at all happens if that reallocation
   * fails, which `allocOk` decides) and the loop sets the bit of every page
   * from `startPage` to `endPage`.
   */
  method MarkDirty(tracker: FileTracker?, offset: i64, amount: i32, allocOk: bool)
    requires tracker != null ==> tracker.Valid() && tracker.pageSize > 0
    requires tracker != null ==> RangeFits(offset, amount, tracker.pageSize as nat)
    modifies tracker
    ensures tracker != null ==>
              && tracker.View() == Mark(old(tracker.View()), offset, amount, tracker.pageSize as nat, allocOk)
              && tracker.Valid()
              && tracker.isOpen == old(tracker.isOpen)
  {
    if tracker == null || amount <= 0 {
      return;
    }
    var pageSize := tracker.pageSize as int;
    var startPage := offset / pageSize;
    var endPage := (offset + amount - 1) / pageSize;
    MarkSteps(tracker.View(), offset, amount, pageSize, allocOk);
    var grown := tracker.EnsurePages(endPage + 1, allocOk);
    if !grown {
      return;
    }
    tracker.SetPageRange(startPage, endPage);
  }

  /**
   * The listing part of `vfs_tracking_get_dirty_pages` for a found tracker
   * (or none).  It reports count 0 and a NULL array when there is no
   * tracker, no bitmap or no set bit; `SQLITE_NOMEM`, without writing the
   * outputs, when the result array cannot be allocated; and otherwise a
   * fresh array of the dirty pages in ascending order with its length as
   * the count.  `written` says whether `*pPageCount` and `*ppPages` were
   * stored; when it is false `pageCount` and `pages` carry no meaning.
   */
  method DirtyPagesOf(tracker: FileTracker?, allocOk: bool)
    returns (rc: int, written: bool, pageCount: nat, pages: array?<nat>)
    requires tracker != null ==> tracker.Valid()
    ensures tracker == null || tracker.DirtyPages() == {} ==>
              rc == SqliteOk && written && pageCount == 0 && pages == null
    ensures tracker != null && tracker.DirtyPages() != {} && !allocOk ==>
              rc == SqliteNoMem && !written
    ensures tracker != null && tracker.DirtyPages() != {} && allocOk ==>
              && rc == SqliteOk && written
              && pages != null && fresh(pages)
              && pages[..] == DirtyList(tracker.dirtyBitmap, tracker.totalPages)
              && StrictlyIncreasing(pages[..])
              && (forall p: nat :: p in pages[..] <==> p in tracker.DirtyPages())
              && pageCount == pages.Length == |tracker.DirtyPages()|
  {
    if tracker == null || |tracker.dirtyBitmap| == 0 {
      if tracker != null {
        assert tracker.totalPages == 0;
        assert SetBelow(tracker.dirtyBitmap, 0) == {};
      }
      return SqliteOk, true, 0, null;
    }
    var words, totalPages := tracker.dirtyBitmap, tracker.totalPages;
    CountSetIsCardinality(words, totalPages);
    var dirtyCount := CountDirty(words, totalPages);
    if dirtyCount == 0 {
      return SqliteOk, true, 0, null;
    }
    if !allocOk {
      return SqliteNoMem, false, 0, null;
    }
    pages := new nat[dirtyCount];
    FillDirty(words, totalPages, pages);
    DirtyListMembers(words, totalPages);
    DirtyListSorted(words, totalPages);
    return SqliteOk, true, dirtyCount, pages;
  }

  /** The first loop of the listing: count the set bits of pages `0 .. totalPages - 1`. */
  method CountDirty(words: seq<Word>, totalPages: nat) returns (dirtyCount: nat)
    requires totalPages <= 32 * |words|
    ensures dirtyCount == CountSet(words, totalPages)
  {
    dirtyCount := 0;
    var i := 0;
    while i < totalPages
      invariant 0 <= i <= totalPages
      invariant dirtyCount == CountSet(words, i)
    {
      if words[i / 32][i % 32] {
        dirtyCount := dirtyCount + 1;
      }
      i := i + 1;
    }
  }

  /**
   * The second loop of the listing: store the set pages, ascending, into an
   * array sized by the first loop's count.
   */
  method FillDirty(words: seq<Word>, totalPages: nat, pages: array<nat>)
    requires totalPages <= 32 * |words| && pages.Length == CountSet(words, totalPages)
    modifies pages
    ensures pages[..] == DirtyList(words, totalPages)
  {
    var pageIndex := 0;
    var i := 0;
    while i < totalPages
      invariant 0 <= i <= totalPages
      invariant pageIndex == CountSet(words, i) <= pages.Length
      invariant pages[..pageIndex] == DirtyList(words, i)
    {
      CountSetMonotone(words, i + 1, totalPages);
      if words[i / 32][i % 32] {
        ghost var listed := pages[..pageIndex];
        pages[pageIndex] := i;
        assert pages[..pageIndex + 1] == listed + [i];
        pageIndex := pageIndex + 1;
      }
      i := i + 1;
    }
    assert pages[..] == pages[..pageIndex];
  }
}
