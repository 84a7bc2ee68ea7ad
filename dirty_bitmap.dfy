/**
 * The dirty-page bitmap of one tracked file, as a value.
 *
 * A FileTracker keeps one bit per page in a growable array of 32-bit words:
 * page p lives in word p / 32 at bit p % 32.  `Bitmap` is that array
 * together with the page count it covers (`totalPages`); `Dirty` is the
 * abstract set of dirty pages it stands for.  The functions here are the
 * specifications the imperative tracker methods are proved against, and the
 * lemmas state what marking, growing and clearing mean for that set.
 */
module DirtyBitmap {
  import opened Sqlite

  // ---------------------------------------------------------------------
  // Words and pages
  // ---------------------------------------------------------------------

  /**
   * One uint32_t word of the bitmap, as its 32 bits: entry k is bit k,
   * the bit `w & (1U << k)` tests and `w |= 1U << k` sets.
   */
  type Word = w: seq<bool> | |w| == 32 witness seq(32, _ => false)

  /** The word 0. */
  const ZeroWord: Word := seq(32, _ => false)

  /** Page p is marked: bit `p % 32` of word `p / 32` is set. */
  predicate IsSet(words: seq<Word>, p: nat)
    requires p < 32 * |words|
  {
    words[p / 32][p % 32]
  }

  /** The number of words `(pages + 31) / 32`: the fewest words holding `pages` bits. */
  function WordsFor(pages: nat): (n: nat)
    ensures 32 * n >= pages
    ensures pages > 32 * n - 32
  {
    (pages + 31) / 32
  }

  lemma WordsForMonotone(a: nat, b: nat)
    requires a <= b
    ensures WordsFor(a) <= WordsFor(b)
  {
  }

  /** `n` zero words: what `memset(..., 0, ...)` leaves. */
  function Zeros(n: nat): (r: seq<Word>)
    ensures |r| == n
    ensures forall p :: 0 <= p < 32 * n ==> !IsSet(r, p)
  {
    seq(n, _ => ZeroWord)
  }

  /** One step of the marking loop: `words[p / 32] |= 1U << (p % 32)`. */
  function SetPage(words: seq<Word>, p: nat): (r: seq<Word>)
    requires p < 32 * |words|
    ensures |r| == |words|
    ensures forall q :: 0 <= q < 32 * |r| ==> (IsSet(r, q) <==> q == p || IsSet(words, q))
  {
    var r := words[p / 32 := words[p / 32][p % 32 := true]];
    SetPageBits(words, p, r);
    r
  }

  lemma SetPageBits(words: seq<Word>, p: nat, r: seq<Word>)
    requires p < 32 * |words|
    requires r == words[p / 32 := words[p / 32][p % 32 := true]]
    ensures forall q :: 0 <= q < 32 * |r| ==> (IsSet(r, q) <==> q == p || IsSet(words, q))
  {
    forall q | 0 <= q < 32 * |r|
      ensures IsSet(r, q) <==> q == p || IsSet(words, q)
    {
      if q / 32 == p / 32 {
        assert q == p <==> q % 32 == p % 32;
      }
    }
  }

  /** The words after setting every page of `[lo, hi)`. */
  function SetPages(words: seq<Word>, lo: nat, hi: nat): (r: seq<Word>)
    requires hi <= 32 * |words|
    ensures |r| == |words|
    ensures forall q :: 0 <= q < 32 * |r| ==> (IsSet(r, q) <==> IsSet(words, q) || lo <= q < hi)
    decreases hi
  {
    if hi <= lo then words else SetPage(SetPages(words, lo, hi - 1), hi - 1)
  }

  /** Setting pages that are all set already changes nothing. */
  lemma {:induction false} SetPagesAlreadySet(words: seq<Word>, lo: nat, hi: nat)
    requires hi <= 32 * |words|
    requires forall q :: lo <= q < hi ==> IsSet(words, q)
    ensures SetPages(words, lo, hi) == words
    decreases hi
  {
    if lo < hi {
      SetPagesAlreadySet(words, lo, hi - 1);
      var w, k := (hi - 1) / 32, (hi - 1) % 32;
      assert IsSet(words, hi - 1);
      assert words[w][k := true] == words[w];
      assert words[w := words[w][k := true]] == words;
    }
  }

  // ---------------------------------------------------------------------
  // The bitmap of a tracker
  // ---------------------------------------------------------------------

  /** `dirtyBitmap` (with `bitmapSize == |words|`) and `totalPages` of a FileTracker. */
  datatype Bitmap = Bitmap(words: seq<Word>, totalPages: nat)

  /**
   * The tracker's bitmap invariant: `totalPages` is a uint32_t, the array has
   * exactly `(totalPages + 31) / 32` words (so no words exactly when no
   * pages), and no bit at or beyond `totalPages` is set.
   */
  predicate WellFormed(b: Bitmap)
  {
    && b.totalPages < U32Limit
    && |b.words| == WordsFor(b.totalPages)
    && forall p :: b.totalPages <= p < 32 * |b.words| ==> !IsSet(b.words, p)
  }

  /** The dirty pages a bitmap stands for. */
  ghost function Dirty(b: Bitmap): set<nat>
    requires |b.words| == WordsFor(b.totalPages)
  {
    SetBelow(b.words, b.totalPages)
  }

  // ---------------------------------------------------------------------
  // Byte ranges and pages
  // ---------------------------------------------------------------------

  /**
   * What `vfs_tracking_mark_dirty` needs of its arguments for its uint32_t
   * casts and its int64 sum to be exact: a non-negative offset, no overflow
   * of `offset + amount - 1`, and `endPage + 1` representable in 32 bits.
   */
  predicate RangeFits(offset: int, amount: int, pageSize: nat)
    requires pageSize > 0
  {
    amount > 0 ==>
      && 0 <= offset
      && offset + amount - 1 <= I64Max
      && (offset + amount - 1) / pageSize < U32Max
  }

  function StartPage(offset: nat, pageSize: nat): (page: nat)
    requires pageSize > 0
  {
    offset / pageSize
  }

  function EndPage(offset: nat, amount: nat, pageSize: nat): (page: nat)
    requires pageSize > 0 && amount > 0
  {
    (offset + amount - 1) / pageSize
  }

  lemma DivMonotone(x: nat, y: nat, d: nat)
    requires d > 0 && x <= y
    ensures x / d <= y / d
  {
    MulMonotone(d, y / d + 1, x / d);
    assert d * (y / d + 1) == d * (y / d) + d;
  }

  lemma {:induction false} MulMonotone(d: nat, a: nat, b: nat)
    ensures a <= b ==> d * a <= d * b
  {
    if d > 0 {
      MulMonotone(d - 1, a, b);
      assert d * a == (d - 1) * a + a && d * b == (d - 1) * b + b;
    }
  }

  /** Division by `d` has a unique quotient. */
  lemma DivUnique(x: nat, d: nat, q: nat)
    requires d > 0 && d * q <= x < d * q + d
    ensures x / d == q
  {
    var r := x / d;
    MulLess(d, r, q);
    MulLess(d, q, r);
  }

  lemma MulLess(d: nat, a: nat, b: nat)
    ensures a < b ==> d * a + d <= d * b
  {
    MulMonotone(d, a + 1, b);
    assert d * (a + 1) == d * a + d;
  }

  /**
   * The pages `floor(offset / pageSize) .. floor((offset + amount - 1) / pageSize)`
   * are exactly the pages that hold a byte of `[offset, offset + amount)`.
   */
  lemma PagesOfByteRange(offset: nat, amount: nat, pageSize: nat, p: nat)
    requires pageSize > 0 && amount > 0
    ensures StartPage(offset, pageSize) <= p <= EndPage(offset, amount, pageSize)
            <==> exists byte: nat :: offset <= byte < offset + amount && byte / pageSize == p
  {
    if StartPage(offset, pageSize) <= p <= EndPage(offset, amount, pageSize) {
      var byte := PageHoldsByte(offset, amount, pageSize, p);
    }
    if exists byte: nat :: offset <= byte < offset + amount && byte / pageSize == p {
      var byte: nat :| offset <= byte < offset + amount && byte / pageSize == p;
      DivMonotone(offset, byte, pageSize);
      DivMonotone(byte, offset + amount - 1, pageSize);
    }
  }

  /** A byte of the range that lies on page p, for every page p of the span. */
  lemma PageHoldsByte(offset: nat, amount: nat, pageSize: nat, p: nat) returns (byte: nat)
    requires pageSize > 0 && amount > 0
    requires StartPage(offset, pageSize) <= p <= EndPage(offset, amount, pageSize)
    ensures offset <= byte < offset + amount && byte / pageSize == p
  {
    var s, e := StartPage(offset, pageSize), EndPage(offset, amount, pageSize);
    if p == s {
      byte := offset;
    } else {
      byte := pageSize * p;
      DivUnique(byte, pageSize, p);
      MulMonotone(pageSize, s + 1, p);
      MulMonotone(pageSize, p, e);
      assert pageSize * (s + 1) == pageSize * s + pageSize;
      assert offset < pageSize * s + pageSize;
      assert pageSize * e <= offset + amount - 1;
    }
  }

  // ---------------------------------------------------------------------
  // Marking a range dirty
  // ---------------------------------------------------------------------

  function Max(a: nat, b: nat): (m: nat)
    ensures m >= a && m >= b && (m == a || m == b)
  {
    if a < b then b else a
  }

  /** The array after `realloc` to `n` words and zero-filling the new words. */
  function Extend(words: seq<Word>, n: nat): (r: seq<Word>)
    requires |words| <= n
    ensures |r| == n
    ensures forall q :: 0 <= q < 32 * n ==> (IsSet(r, q) <==> q < 32 * |words| && IsSet(words, q))
  {
    var r := words + Zeros(n - |words|);
    assert forall q :: 32 * |words| <= q < 32 * n ==> r[q / 32] == ZeroWord;
    assert forall q :: 0 <= q < 32 * |words| ==> r[q / 32] == words[q / 32];
    r
  }

  /**
   * The "ensure bitmap is large enough" step for `requiredPages`: None when
   * the reallocation it needs is refused (`allocOk` false), otherwise the
   * grown bitmap covering `max(totalPages, requiredPages)` pages, whose words
   * hold exactly the old bits and whose new words are zero.
   */
  function Grow(b: Bitmap, requiredPages: nat, allocOk: bool): (r: Option<Bitmap>)
    requires WellFormed(b) && requiredPages < U32Limit
    ensures r.None? <==> WordsFor(requiredPages) > |b.words| && !allocOk
    ensures r.Some? ==> WellFormed(r.value)
    ensures r.Some? ==> r.value.totalPages == Max(b.totalPages, requiredPages)
    ensures r.Some? ==> |r.value.words| >= |b.words|
    ensures r.Some? ==> forall q :: 0 <= q < 32 * |r.value.words| ==>
              (IsSet(r.value.words, q) <==> q < 32 * |b.words| && IsSet(b.words, q))
  {
    if requiredPages > b.totalPages then
      var newBitmapSize := WordsFor(requiredPages);
      WordsForMonotone(b.totalPages, requiredPages);
      if newBitmapSize > |b.words| then
        if allocOk then Some(Bitmap(Extend(b.words, newBitmapSize), requiredPages)) else None
      else
        Some(Bitmap(b.words, requiredPages))
    else
      WordsForMonotone(requiredPages, b.totalPages);
      Some(b)
  }

  /** Marking the range needs the bitmap reallocated to more words. */
  predicate NeedsAllocation(b: Bitmap, offset: int, amount: int, pageSize: nat)
    requires pageSize > 0 && RangeFits(offset, amount, pageSize)
  {
    amount > 0 && WordsFor(EndPage(offset, amount, pageSize) + 1) > |b.words|
  }

  /**
   * `vfs_tracking_mark_dirty` on a tracker with this bitmap and page size.
   * Nothing happens for `amount <= 0`, nor when the growth it needs cannot
   * be allocated; otherwise the bitmap grows and every page of the byte
   * range is set.
   */
  function Mark(b: Bitmap, offset: int, amount: int, pageSize: nat, allocOk: bool): (r: Bitmap)
    requires WellFormed(b) && pageSize > 0 && RangeFits(offset, amount, pageSize)
    ensures WellFormed(r)
  {
    if amount <= 0 then b
    else
      var startPage := StartPage(offset, pageSize);
      var endPage := EndPage(offset, amount, pageSize);
      match Grow(b, endPage + 1, allocOk)
      case None => b
      case Some(g) => Bitmap(SetPages(g.words, startPage, endPage + 1), g.totalPages)
  }

  /**
   * `Mark` as the source performs it, in two steps on `startPage` and
   * `endPage` computed by division: grow to `endPage + 1` pages, then set
   * the pages `startPage .. endPage`, all of which lie inside the grown array.
   */
  lemma MarkSteps(b: Bitmap, offset: int, amount: int, pageSize: nat, allocOk: bool)
    requires WellFormed(b) && pageSize > 0 && RangeFits(offset, amount, pageSize) && amount > 0
    ensures 0 <= offset / pageSize <= (offset + amount - 1) / pageSize < U32Max
    ensures Grow(b, (offset + amount - 1) / pageSize + 1, allocOk).None? ==>
              Mark(b, offset, amount, pageSize, allocOk) == b
    ensures Grow(b, (offset + amount - 1) / pageSize + 1, allocOk).Some? ==>
              var g := Grow(b, (offset + amount - 1) / pageSize + 1, allocOk).value;
              && (offset + amount - 1) / pageSize < 32 * |g.words|
              && Mark(b, offset, amount, pageSize, allocOk)
                 == Bitmap(SetPages(g.words, offset / pageSize, (offset + amount - 1) / pageSize + 1), g.totalPages)
  {
    DivMonotone(offset, offset + amount - 1, pageSize);
  }

  /**
   * Marking `amount > 0` bytes at `offset` leaves the bitmap alone when the
   * needed growth fails; otherwise `totalPages` becomes
   * `max(totalPages, endPage + 1)`, the word count only grows (to
   * `(totalPages + 31) / 32`), every old bit is kept, the new words hold
   * only bits of the range and the dirty set gains exactly the range.
   */
  lemma MarkDirtyPages(b: Bitmap, offset: int, amount: int, pageSize: nat, allocOk: bool)
    requires WellFormed(b) && pageSize > 0 && RangeFits(offset, amount, pageSize) && amount > 0
    ensures var r := Mark(b, offset, amount, pageSize, allocOk);
            var s, e := StartPage(offset, pageSize), EndPage(offset, amount, pageSize);
            if NeedsAllocation(b, offset, amount, pageSize) && !allocOk then r == b
            else
              && r.totalPages == Max(b.totalPages, e + 1)
              && |r.words| == WordsFor(r.totalPages) >= |b.words|
              && (forall q :: 0 <= q < 32 * |b.words| && IsSet(b.words, q) ==> IsSet(r.words, q))
              && (forall q :: 32 * |b.words| <= q < 32 * |r.words| ==> (IsSet(r.words, q) <==> s <= q <= e))
              && (forall q :: q in Dirty(r) <==> q in Dirty(b) || s <= q <= e)
  {
    var r := Mark(b, offset, amount, pageSize, allocOk);
    var s, e := StartPage(offset, pageSize), EndPage(offset, amount, pageSize);
    var g := Grow(b, e + 1, allocOk);
    if g.Some? {
      assert r.words == SetPages(g.value.words, s, e + 1);
      forall q: nat
        ensures q in Dirty(r) <==> q in Dirty(b) || s <= q <= e
      {
        if q < r.totalPages {
          assert IsSet(r.words, q) <==> (q < 32 * |b.words| && IsSet(b.words, q)) || s <= q <= e;
        }
      }
    }
  }

  /** A write of no bytes marks nothing. */
  lemma MarkNothing(b: Bitmap, offset: int, amount: int, pageSize: nat, allocOk: bool)
    requires WellFormed(b) && pageSize > 0 && amount <= 0
    ensures Mark(b, offset, amount, pageSize, allocOk) == b
  {
  }

  /** Marking a range a second time changes nothing, once the first mark got its memory. */
  lemma MarkIdempotent(b: Bitmap, offset: int, amount: int, pageSize: nat, allocOk: bool, again: bool)
    requires WellFormed(b) && pageSize > 0 && RangeFits(offset, amount, pageSize)
    requires !NeedsAllocation(b, offset, amount, pageSize) || allocOk
    ensures var once := Mark(b, offset, amount, pageSize, allocOk);
            Mark(once, offset, amount, pageSize, again) == once
  {
    if amount > 0 {
      var once := Mark(b, offset, amount, pageSize, allocOk);
      var s, e := StartPage(offset, pageSize), EndPage(offset, amount, pageSize);
      MarkDirtyPages(b, offset, amount, pageSize, allocOk);
      var g := Grow(once, e + 1, again);
      assert g == Some(once);
      SetPagesAlreadySet(once.words, s, e + 1);
    }
  }

  /**
   * A truncation to `size` is recorded as a one-byte write at `size`: it
   * makes the page `size / pageSize` dirty and no other.
   */
  lemma TruncateMarksOnePage(b: Bitmap, size: int, pageSize: nat, allocOk: bool)
    requires WellFormed(b) && pageSize > 0 && RangeFits(size, 1, pageSize)
    requires !NeedsAllocation(b, size, 1, pageSize) || allocOk
    ensures Dirty(Mark(b, size, 1, pageSize, allocOk)) == Dirty(b) + {size / pageSize}
  {
    MarkDirtyPages(b, size, 1, pageSize, allocOk);
  }

  // ---------------------------------------------------------------------
  // Clearing
  // ---------------------------------------------------------------------

  /** `memset(dirtyBitmap, 0, bitmapSize * sizeof(uint32_t))`: no page dirty, sizes kept. */
  function Clear(b: Bitmap): (r: Bitmap)
    ensures |r.words| == |b.words| && r.totalPages == b.totalPages
    ensures forall q :: 0 <= q < 32 * |r.words| ==> !IsSet(r.words, q)
    ensures WellFormed(b) ==> WellFormed(r) && Dirty(r) == {}
  {
    Bitmap(Zeros(|b.words|), b.totalPages)
  }

  // ---------------------------------------------------------------------
  // Listing the dirty pages
  // ---------------------------------------------------------------------

  /** The number of set pages below `hi`: what the counting loop arrives at. */
  function CountSet(words: seq<Word>, hi: nat): (count: nat)
    requires hi <= 32 * |words|
  {
    if hi == 0 then 0 else CountSet(words, hi - 1) + (if IsSet(words, hi - 1) then 1 else 0)
  }

  /** The set pages below `hi`. */
  ghost function SetBelow(words: seq<Word>, hi: nat): set<nat>
    requires hi <= 32 * |words|
  {
    set p: nat | p < hi && IsSet(words, p)
  }

  /** The count is the number of set pages. */
  lemma {:induction false} CountSetIsCardinality(words: seq<Word>, hi: nat)
    requires hi <= 32 * |words|
    ensures CountSet(words, hi) == |SetBelow(words, hi)|
  {
    if hi == 0 {
      assert SetBelow(words, 0) == {};
    } else {
      CountSetIsCardinality(words, hi - 1);
      var prev := SetBelow(words, hi - 1);
      assert hi - 1 !in prev;
      if IsSet(words, hi - 1) {
        assert SetBelow(words, hi) == prev + {hi - 1};
      } else {
        assert SetBelow(words, hi) == prev;
      }
    }
  }

  /** The count is positive exactly when some page below `hi` is set. */
  lemma {:induction false} CountSetPositive(words: seq<Word>, hi: nat)
    requires hi <= 32 * |words|
    ensures CountSet(words, hi) > 0 <==> exists p: nat :: p < hi && IsSet(words, p)
  {
    if hi > 0 {
      CountSetPositive(words, hi - 1);
      if exists p: nat :: p < hi && IsSet(words, p) {
        var p: nat :| p < hi && IsSet(words, p);
        assert p == hi - 1 || (p < hi - 1 && IsSet(words, p));
      }
    }
  }

  /** Counting further never counts less. */
  lemma {:induction false} CountSetMonotone(words: seq<Word>, lo: nat, hi: nat)
    requires lo <= hi <= 32 * |words|
    ensures CountSet(words, lo) <= CountSet(words, hi)
    decreases hi
  {
    if lo < hi {
      CountSetMonotone(words, lo, hi - 1);
    }
  }

  /**
   * The set pages below `hi` in ascending order, one entry per set page:
   * what the filling loop writes into the result array.
   */
  function DirtyList(words: seq<Word>, hi: nat): (r: seq<nat>)
    requires hi <= 32 * |words|
    ensures |r| == CountSet(words, hi)
  {
    if hi == 0 then []
    else
      var prev := DirtyList(words, hi - 1);
      if IsSet(words, hi - 1) then prev + [hi - 1] else prev
  }

  /** The list holds exactly the set pages below `hi`. */
  lemma {:induction false} DirtyListMembers(words: seq<Word>, hi: nat)
    requires hi <= 32 * |words|
    ensures forall x: nat :: x in DirtyList(words, hi) <==> x < hi && IsSet(words, x)
  {
    if hi > 0 {
      DirtyListMembers(words, hi - 1);
    }
  }

  /** The list is strictly ascending, and every entry is below `hi`. */
  lemma {:induction false} DirtyListSorted(words: seq<Word>, hi: nat)
    requires hi <= 32 * |words|
    ensures forall i :: 0 <= i < |DirtyList(words, hi)| ==> DirtyList(words, hi)[i] < hi
    ensures StrictlyIncreasing(DirtyList(words, hi))
  {
    if hi > 0 {
      var prev := DirtyList(words, hi - 1);
      DirtyListSorted(words, hi - 1);
      if IsSet(words, hi - 1) {
        var r := prev + [hi - 1];
        assert DirtyList(words, hi) == r;
        forall i, j | 0 <= i < j < |r|
          ensures r[i] < r[j]
        {
          if j < |prev| {
            assert r[i] == prev[i] && r[j] == prev[j];
          } else {
            assert r[i] == prev[i] < hi - 1;
          }
        }
      }
    }
  }

  predicate StrictlyIncreasing(s: seq<nat>)
  {
    forall i, j :: 0 <= i < j < |s| ==> s[i] < s[j]
  }

  /** A strictly increasing list is determined by the values it holds. */
  lemma {:induction false} IncreasingListUnique(a: seq<nat>, b: seq<nat>)
    requires StrictlyIncreasing(a) && StrictlyIncreasing(b)
    requires forall x :: x in a <==> x in b
    ensures a == b
    decreases |a|
  {
    assert a != [] ==> a[0] in b;
    assert b != [] ==> b[0] in a;
    if a != [] && b != [] {
      assert a[0] == b[0] by {
        assert a[0] in b && b[0] in a;
        var i :| 0 <= i < |b| && b[i] == a[0];
        var j :| 0 <= j < |a| && a[j] == b[0];
        assert b[0] <= a[0] && a[0] <= b[0];
      }
      forall x
        ensures x in a[1..] <==> x in b[1..]
      {
        if x in a[1..] {
          var i :| 1 <= i < |a| && a[i] == x;
          assert x > a[0];
        }
        if x in b[1..] {
          var i :| 1 <= i < |b| && b[i] == x;
          assert x > b[0];
        }
        assert x in a <==> x == a[0] || x in a[1..];
        assert x in b <==> x == b[0] || x in b[1..];
      }
      IncreasingListUnique(a[1..], b[1..]);
      assert a == [a[0]] + a[1..] && b == [b[0]] + b[1..];
    }
  }

  // ---------------------------------------------------------------------
  // 32-bit arithmetic of the growth step as the source writes it
  // ---------------------------------------------------------------------

  /**
   * `newBitmapSize = (requiredPages + 31) / 32` evaluated in uint32_t, as
   * vfs_tracking_mark_dirty computes it: the sum wraps modulo 2^32.
   */
  function NewBitmapSizeAsWritten(requiredPages: u32): (size: u32)
  {
    ((requiredPages + 31) % U32Limit) / 32
  }

  /**
   * For the 31 largest page counts the wrapped sum yields a word count too
   * small to hold `requiredPages` bits, so the bitmap is not grown while
   * `totalPages` is raised and the marking loop writes past the array.
   */
  lemma NewBitmapSizeAsWrittenTooSmall(requiredPages: u32)
    requires requiredPages >= U32Limit - 31
    ensures 32 * NewBitmapSizeAsWritten(requiredPages) < requiredPages
    ensures NewBitmapSizeAsWritten(requiredPages) < WordsFor(requiredPages)
  {
    assert (requiredPages + 31) % U32Limit == requiredPages + 31 - U32Limit;
  }

  /** Below that range the wrapped expression and `WordsFor` agree. */
  lemma NewBitmapSizeAsWrittenAgrees(requiredPages: u32)
    requires requiredPages < U32Limit - 31
    ensures NewBitmapSizeAsWritten(requiredPages) == WordsFor(requiredPages)
  {
  }
}
