/**
 * The `TrackingFile` wrapper that the tracking VFS hands to SQLite, and the
 * twelve methods of its `trackingIoMethods` table.
 *
 * Every method forwards its call to the real file exactly once, with the
 * same scalar arguments, and returns the real file's result code.  Only
 * three of them do more: xClose clears the tracker's `isOpen` flag, and
 * xWrite and xTruncate mark pages dirty when the real call succeeded.
 */
module TrackingFiles {
  import opened Sqlite
  import opened DirtyBitmap
  import opened Backend
  import opened Tracker

  class TrackingFile {
    /** `pReal`: the real file opened by the underlying VFS. */
    const realFile: RealFile
    /** `pTracker`: the tracker of the file's name, or NULL. */
    var tracker: FileTracker?
    /** `base.pMethods` is `&trackingIoMethods`: set by a successful xOpen. */
    var methodsInstalled: bool

    constructor (realFile: RealFile)
      ensures this.realFile == realFile && tracker == null && !methodsInstalled
    {
      this.realFile := realFile;
      tracker := null;
      methodsInstalled := false;
    }

    /** An attached tracker keeps its bitmap invariant and has a page size to divide by. */
    ghost predicate Valid()
      reads this, tracker
    {
      tracker != null ==> tracker.Valid() && tracker.pageSize > 0
    }

    /** `fileClose`: close the real file, then mark the tracker closed whatever the result. */
    method Close() returns (rc: int)
      modifies realFile, tracker
      ensures rc == realFile.respond(old(realFile.log), XClose)
      ensures realFile.log == old(realFile.log) + [XClose]
      ensures tracker != null ==> !tracker.isOpen && tracker.View() == old(tracker.View())
    {
      rc := realFile.Invoke(XClose);
      if tracker != null {
        tracker.isOpen := false;
      }
    }

    /** `fileRead`: pass-through. */
    method Read(amount: i32, offset: i64) returns (rc: int)
      modifies realFile
      ensures rc == realFile.respond(old(realFile.log), XRead(amount, offset))
      ensures realFile.log == old(realFile.log) + [XRead(amount, offset)]
    {
      rc := realFile.Invoke(XRead(amount, offset));
    }

    /**
     * `fileWrite`: write through the real file; only when that succeeded
     * and a tracker is attached, mark `[offset, offset + amount)` dirty.
     */
    method Write(amount: i32, offset: i64, allocOk: bool) returns (rc: int)
      requires Valid()
      requires tracker != null ==> RangeFits(offset, amount, tracker.pageSize as nat)
      modifies realFile, tracker
      ensures rc == realFile.respond(old(realFile.log), XWrite(amount, offset))
      ensures realFile.log == old(realFile.log) + [XWrite(amount, offset)]
      ensures tracker != null && rc == SqliteOk ==>
                tracker.View() == Mark(old(tracker.View()), offset, amount, tracker.pageSize as nat, allocOk)
      ensures tracker != null && rc != SqliteOk ==> tracker.View() == old(tracker.View())
      ensures tracker != null ==> tracker.isOpen == old(tracker.isOpen)
      ensures Valid()
    {
      rc := realFile.Invoke(XWrite(amount, offset));
      if rc == SqliteOk && tracker != null {
        MarkDirty(tracker, offset, amount, allocOk);
      }
    }

    /**
     * `fileTruncate`: truncate the real file; only when that succeeded and a
     * tracker is attached, mark the page holding byte `size` dirty.
     */
    method Truncate(size: i64, allocOk: bool) returns (rc: int)
      requires Valid()
      requires tracker != null ==> RangeFits(size, 1, tracker.pageSize as nat)
      modifies realFile, tracker
      ensures rc == realFile.respond(old(realFile.log), XTruncate(size))
      ensures realFile.log == old(realFile.log) + [XTruncate(size)]
      ensures tracker != null && rc == SqliteOk ==>
                tracker.View() == Mark(old(tracker.View()), size, 1, tracker.pageSize as nat, allocOk)
      ensures tracker != null && rc != SqliteOk ==> tracker.View() == old(tracker.View())
      ensures tracker != null ==> tracker.isOpen == old(tracker.isOpen)
      ensures Valid()
    {
      rc := realFile.Invoke(XTruncate(size));
      if rc == SqliteOk && tracker != null {
        MarkDirty(tracker, size, 1, allocOk);
      }
    }

    /** `fileSync`: pass-through. */
    method Sync(flags: int) returns (rc: int)
      modifies realFile
      ensures rc == realFile.respond(old(realFile.log), XSync(flags))
      ensures realFile.log == old(realFile.log) + [XSync(flags)]
    {
      rc := realFile.Invoke(XSync(flags));
    }

    /** `fileFileSize`: pass-through; the size itself is the real file's out-parameter. */
    method FileSize() returns (rc: int)
      modifies realFile
      ensures rc == realFile.respond(old(realFile.log), XFileSize)
      ensures realFile.log == old(realFile.log) + [XFileSize]
    {
      rc := realFile.Invoke(XFileSize);
    }

    /** `fileLock`: pass-through. */
    method Lock(level: int) returns (rc: int)
      modifies realFile
      ensures rc == realFile.respond(old(realFile.log), XLock(level))
      ensures realFile.log == old(realFile.log) + [XLock(level)]
    {
      rc := realFile.Invoke(XLock(level));
    }

    /** `fileUnlock`: pass-through. */
    method Unlock(level: int) returns (rc: int)
      modifies realFile
      ensures rc == realFile.respond(old(realFile.log), XUnlock(level))
      ensures realFile.log == old(realFile.log) + [XUnlock(level)]
    {
      rc := realFile.Invoke(XUnlock(level));
    }

    /** `fileCheckReservedLock`: pass-through. */
    method CheckReservedLock() returns (rc: int)
      modifies realFile
      ensures rc == realFile.respond(old(realFile.log), XCheckReservedLock)
      ensures realFile.log == old(realFile.log) + [XCheckReservedLock]
    {
      rc := realFile.Invoke(XCheckReservedLock);
    }

    /** `fileFileControl`: pass-through of every opcode. */
    method FileControl(op: int) returns (rc: int)
      modifies realFile
      ensures rc == realFile.respond(old(realFile.log), XFileControl(op))
      ensures realFile.log == old(realFile.log) + [XFileControl(op)]
    {
      rc := realFile.Invoke(XFileControl(op));
    }

    /** `fileSectorSize`: pass-through. */
    method SectorSize() returns (size: int)
      modifies realFile
      ensures size == realFile.respond(old(realFile.log), XSectorSize)
      ensures realFile.log == old(realFile.log) + [XSectorSize]
    {
      size := realFile.Invoke(XSectorSize);
    }

    /** `fileDeviceCharacteristics`: pass-through. */
    method DeviceCharacteristics() returns (flags: int)
      modifies realFile
      ensures flags == realFile.respond(old(realFile.log), XDeviceCharacteristics)
      ensures realFile.log == old(realFile.log) + [XDeviceCharacteristics]
    {
      flags := realFile.Invoke(XDeviceCharacteristics);
    }
  }
}
