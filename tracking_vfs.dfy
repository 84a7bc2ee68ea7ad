/**
 * The global tracking state (`g_state`) together with the `trackingVfs`
 * record, and the operations on them: init and shutdown, the tracker
 * registry (`vfs_tracking_get_file`), the two query/reset entry points and
 * the four methods of the tracking VFS.
 *
 * The registry is a list of trackers, newest first, with at most one
 * tracker per normalized file name.  A name and the same name with one
 * leading '/' share a tracker.
 */
module TrackingVfs {
  import opened Sqlite
  import opened DirtyBitmap
  import opened Backend
  import opened Tracker
  import opened TrackingFiles

  /** The name a tracker is kept under: the name without one leading '/'. */
  function Normalize(filename: string): (key: string)
  {
    if |filename| > 0 && filename[0] == '/' then filename[1..] else filename
  }

  /** Exactly one leading '/' is dropped; any name not starting with '/' is kept. */
  lemma NormalizeStripsOneSlash(name: string)
    ensures Normalize(['/'] + name) == name
    ensures (name == [] || name[0] != '/') ==> Normalize(name) == name
  {
  }

  /** `"/x"` and `"x"` reach the same tracker; `"//x"` and `"x"` do not. */
  lemma NormalizeIdentifies(name: string)
    requires name == [] || name[0] != '/'
    ensures Normalize(['/'] + name) == Normalize(name)
    ensures Normalize(['/', '/'] + name) != Normalize(name)
  {
    assert (['/', '/'] + name)[1..] == ['/'] + name;
    assert |['/'] + name| != |name|;
  }

  /**
   * `g_state` (`files`, `pRealVfs`, `defaultPageSize`) and the parts of
   * `trackingVfs` the model keeps: `pAppData` and whether it is registered.
   */
  class TrackingState {
    /** The tracker list `g_state.files`, head first. */
    var files: seq<FileTracker>
    /** `g_state.pRealVfs`: non-null once init has found the base VFS. */
    var realVfs: RealVfs?
    var defaultPageSize: u32
    /** `trackingVfs.pAppData`: the VFS every tracking VFS call goes to. */
    var appData: RealVfs?
    /** The tracking VFS is registered with SQLite (as the default VFS). */
    var registered: bool

    /**
     * Every tracker keeps its bitmap invariant and has the current default
     * page size, names are unique, and once a base VFS has been installed
     * the page size is positive.
     */
    ghost predicate Valid()
      reads this, files
    {
      && (forall i :: 0 <= i < |files| ==> files[i].Valid() && files[i].pageSize == defaultPageSize)
      && (forall i, j :: 0 <= i < j < |files| ==> files[i].filename != files[j].filename)
      && (realVfs != null ==> appData == realVfs)
      && (appData != null ==> defaultPageSize > 0)
      && (registered ==> realVfs != null)
    }

    /** Some tracker is kept under `name`. */
    ghost predicate Tracked(name: string)
      reads this
    {
      exists i :: 0 <= i < |files| && files[i].filename == name
    }

    /** The zero-initialised statics. */
    constructor ()
      ensures files == [] && realVfs == null && defaultPageSize == 0
      ensures appData == null && !registered
      ensures Valid()
    {
      files := [];
      realVfs := null;
      defaultPageSize := 0;
      appData := null;
      registered := false;
    }

    /**
     * `vfs_tracking_init(baseVfsName, pageSize)`.  `found` is what
     * `sqlite3_vfs_find(baseVfsName)` returns and `registerRc` what
     * `sqlite3_vfs_register` returns.  A second call after a first that
     * found the base VFS returns `SQLITE_OK` and changes nothing, even when
     * the first call's registration failed.
     */
    method Init(found: RealVfs?, pageSize: u32, registerRc: int) returns (rc: int)
      requires Valid()
      modifies this
      ensures Valid()
      ensures old(realVfs) != null ==>
                && rc == SqliteOk
                && files == old(files) && realVfs == old(realVfs) && defaultPageSize == old(defaultPageSize)
                && appData == old(appData) && registered == old(registered)
      ensures old(realVfs) == null && found == null ==>
                && rc == SqliteError
                && files == old(files) && realVfs == null && defaultPageSize == old(defaultPageSize)
                && appData == old(appData) && registered == old(registered)
      ensures old(realVfs) == null && found != null ==>
                && rc == registerRc
                && files == [] && realVfs == found && appData == found
                && defaultPageSize == (if pageSize > 0 then pageSize else DefaultPageSize)
                && registered == (registerRc == SqliteOk)
    {
      if realVfs != null {
        return SqliteOk;
      }
      if found == null {
        return SqliteError;
      }
      realVfs := found;
      files := [];
      defaultPageSize := if pageSize > 0 then pageSize else DefaultPageSize;
      appData := found;
      if registerRc != SqliteOk {
        return registerRc;
      }
      registered := true;
      return SqliteOk;
    }

    /**
     * `vfs_tracking_shutdown`: unregister, forget every tracker and the base
     * VFS.  The default page size and `pAppData` stay as they were.
     */
    method Shutdown()
      requires Valid()
      modifies this
      ensures files == [] && realVfs == null && !registered
      ensures defaultPageSize == old(defaultPageSize) && appData == old(appData)
      ensures Valid()
    {
      files := [];
      registered := false;
      realVfs := null;
    }

    /** The search loop of `vfs_tracking_get_file`: the tracker kept under `name`, if any. */
    method FindTracker(name: string) returns (t: FileTracker?)
      ensures t != null ==> t in files && t.filename == name
      ensures t == null <==> !Tracked(name)
    {
      var k := 0;
      while k < |files|
        invariant 0 <= k <= |files|
        invariant forall i :: 0 <= i < k ==> files[i].filename != name
      {
        if files[k].filename == name {
          return files[k];
        }
        k := k + 1;
      }
      return null;
    }

    /**
     * `vfs_tracking_get_file(filename)`: NULL for a NULL name; otherwise the
     * tracker of the normalized name, created empty at the head of the list
     * when there is none (NULL, with nothing changed, when `calloc` fails).
     */
    method GetFile(filename: Option<string>, allocOk: bool) returns (t: FileTracker?)
      requires Valid()
      modifies this
      ensures Valid()
      ensures realVfs == old(realVfs) && defaultPageSize == old(defaultPageSize)
      ensures appData == old(appData) && registered == old(registered)
      ensures filename.None? ==> t == null && files == old(files)
      ensures filename.Some? && old(Tracked(Normalize(filename.value))) ==>
                t != null && t in old(files) && t.filename == Normalize(filename.value) && files == old(files)
      ensures filename.Some? && !old(Tracked(Normalize(filename.value))) && !allocOk ==>
                t == null && files == old(files)
      ensures filename.Some? && !old(Tracked(Normalize(filename.value))) && allocOk ==>
                && t != null && fresh(t) && files == [t] + old(files)
                && t.filename == Normalize(filename.value) && t.pageSize == defaultPageSize
                && t.View() == Bitmap([], 0) && !t.isOpen
    {
      if filename.None? {
        return null;
      }
      var normalizedName := Normalize(filename.value);
      t := FindTracker(normalizedName);
      if t != null {
        return t;
      }
      if !allocOk {
        return null;
      }
      t := new FileTracker(normalizedName, defaultPageSize);
      files := [t] + files;
    }

    /**
     * `vfs_tracking_get_dirty_pages(filename, pPageCount, ppPages)`.
     * `outputsGiven` says both out-pointers are non-NULL; the tracker is
     * obtained as by GetFile (so an unknown name gets an empty tracker) and
     * then listed as by DirtyPagesOf.  `tracker` names the tracker used.
     */
    method GetDirtyPages(filename: Option<string>, outputsGiven: bool, trackerAllocOk: bool, pagesAllocOk: bool)
      returns (rc: int, written: bool, pageCount: nat, pages: array?<nat>, ghost tracker: FileTracker?)
      requires Valid()
      modifies this
      ensures Valid()
      ensures realVfs == old(realVfs) && defaultPageSize == old(defaultPageSize)
      ensures appData == old(appData) && registered == old(registered)
      ensures filename.None? || !outputsGiven ==>
                rc == SqliteError && !written && tracker == null && files == old(files)
      ensures filename.Some? && outputsGiven ==>
                && (tracker == null <==> !old(Tracked(Normalize(filename.value))) && !trackerAllocOk)
                && (old(Tracked(Normalize(filename.value))) ==> tracker in old(files))
                && (tracker != null ==> tracker in files && tracker.filename == Normalize(filename.value))
                && (tracker == null || tracker in old(files) ==> files == old(files))
                && (tracker != null && tracker !in old(files) ==>
                      fresh(tracker) && files == [tracker] + old(files) && tracker.View() == Bitmap([], 0)
                      && !tracker.isOpen)
      ensures filename.Some? && outputsGiven && (tracker == null || tracker.DirtyPages() == {}) ==>
                rc == SqliteOk && written && pageCount == 0 && pages == null
      ensures filename.Some? && outputsGiven && tracker != null && tracker.DirtyPages() != {} && !pagesAllocOk ==>
                rc == SqliteNoMem && !written
      ensures filename.Some? && outputsGiven && tracker != null && tracker.DirtyPages() != {} && pagesAllocOk ==>
                && rc == SqliteOk && written
                && pages != null && fresh(pages)
                && StrictlyIncreasing(pages[..])
                && (forall p: nat :: p in pages[..] <==> p in tracker.DirtyPages())
                && pageCount == pages.Length == |tracker.DirtyPages()|
    {
      if filename.None? || !outputsGiven {
        return SqliteError, false, 0, null, null;
      }
      var t := GetFile(filename, trackerAllocOk);
      tracker := t;
      if t != null && t !in old(files) {
        assert t.DirtyPages() == {} by {
          assert SetBelow([], 0) == {};
        }
      }
      rc, written, pageCount, pages := DirtyPagesOf(t, pagesAllocOk);
    }

    /**
     * `vfs_tracking_reset_dirty(filename)`: `SQLITE_ERROR` for a NULL name;
     * otherwise the tracker is obtained as by GetFile and its bitmap is
     * zeroed, keeping its size.  No other tracker changes.
     */
    method ResetDirty(filename: Option<string>, allocOk: bool) returns (rc: int, ghost tracker: FileTracker?)
      requires Valid()
      modifies this, files
      ensures Valid()
      ensures realVfs == old(realVfs) && defaultPageSize == old(defaultPageSize)
      ensures appData == old(appData) && registered == old(registered)
      ensures filename.None? ==> rc == SqliteError && tracker == null && files == old(files)
      ensures filename.Some? ==>
                && rc == SqliteOk
                && (tracker == null <==> !old(Tracked(Normalize(filename.value))) && !allocOk)
                && (old(Tracked(Normalize(filename.value))) ==> tracker in old(files))
                && (tracker != null ==> tracker in files && tracker.filename == Normalize(filename.value))
                && (tracker == null || tracker in old(files) ==> files == old(files))
                && (tracker != null && tracker !in old(files) ==>
                      fresh(tracker) && files == [tracker] + old(files) && tracker.View() == Bitmap([], 0)
                      && !tracker.isOpen)
      ensures tracker != null && tracker in old(files) ==> tracker.View() == Clear(old(tracker.View()))
      ensures tracker != null ==> tracker.DirtyPages() == {}
      ensures forall t :: t in old(files) && t != tracker ==> t.View() == old(t.View())
      ensures forall t :: t in old(files) ==> t.isOpen == old(t.isOpen)
    {
      if filename.None? {
        return SqliteError, null;
      }
      var t := GetFile(filename, allocOk);
      tracker := t;
      if t == null || |t.dirtyBitmap| == 0 {
        if t != null {
          assert t.totalPages == 0;
          assert SetBelow(t.dirtyBitmap, 0) == {};
        }
        return SqliteOk, t;
      }
      t.ClearBits();
      return SqliteOk, t;
    }

    /** The tracker part of `trackingOpen`: get the tracker of `name` as GetFile does and mark it open. */
    method OpenTracker(name: string, allocOk: bool) returns (t: FileTracker?)
      requires Valid() && defaultPageSize > 0
      modifies this, files
      ensures Valid()
      ensures realVfs == old(realVfs) && defaultPageSize == old(defaultPageSize)
      ensures appData == old(appData) && registered == old(registered)
      ensures forall u :: u in old(files) ==> u.View() == old(u.View())
      ensures forall u :: u in old(files) && u != t ==> u.isOpen == old(u.isOpen)
      ensures t == null <==> !old(Tracked(Normalize(name))) && !allocOk
      ensures old(Tracked(Normalize(name))) ==> t in old(files)
      ensures t != null ==>
                && t in files && t.filename == Normalize(name) && t.isOpen
                && t.Valid() && t.pageSize > 0
      ensures t == null || t in old(files) ==> files == old(files)
      ensures t != null && t !in old(files) ==> fresh(t) && files == [t] + old(files) && t.View() == Bitmap([], 0)
    {
      t := GetFile(Some(name), allocOk);
      if t != null {
        t.isOpen := true;
      }
    }

    /**
     * `trackingOpen`: open the real file through `pAppData`; on success
     * install the tracking methods and attach the tracker of `zName`
     * (obtained as by GetFile and marked open), or none for a NULL name.
     * On failure the file and every tracker are left as they were.
     */
    method Open(file: TrackingFile, zName: Option<string>, flags: int, trackerAllocOk: bool) returns (rc: int)
      requires Valid() && appData != null
      modifies this, files, appData, file
      ensures Valid()
      ensures realVfs == old(realVfs) && defaultPageSize == old(defaultPageSize)
      ensures appData == old(appData) && registered == old(registered)
      ensures rc == appData.respond(old(appData.log), XOpen(zName, flags))
      ensures appData.log == old(appData.log) + [XOpen(zName, flags)]
      ensures forall t :: t in old(files) ==> t.View() == old(t.View())
      ensures forall t :: t in old(files) && (rc != SqliteOk || t != file.tracker) ==> t.isOpen == old(t.isOpen)
      ensures rc != SqliteOk ==>
                && files == old(files) && file.tracker == old(file.tracker)
                && file.methodsInstalled == old(file.methodsInstalled)
      ensures rc == SqliteOk ==> file.methodsInstalled && file.Valid()
      ensures rc == SqliteOk && zName.None? ==> file.tracker == null && files == old(files)
      ensures rc == SqliteOk && zName.Some? ==>
                && (file.tracker == null <==> !old(Tracked(Normalize(zName.value))) && !trackerAllocOk)
                && (old(Tracked(Normalize(zName.value))) ==> file.tracker in old(files))
                && (file.tracker != null ==>
                      file.tracker in files && file.tracker.filename == Normalize(zName.value) && file.tracker.isOpen)
                && (file.tracker == null || file.tracker in old(files) ==> files == old(files))
                && (file.tracker != null && file.tracker !in old(files) ==>
                      fresh(file.tracker) && files == [file.tracker] + old(files)
                      && file.tracker.View() == Bitmap([], 0))
    {
      rc := appData.Invoke(XOpen(zName, flags));
      if rc == SqliteOk {
        file.methodsInstalled := true;
        if zName.Some? {
          var t := OpenTracker(zName.value, trackerAllocOk);
          file.tracker := t;
        } else {
          file.tracker := null;
        }
      }
    }

    /** `trackingDelete`: pass-through to `pAppData`. */
    method Delete(name: string, syncDir: int) returns (rc: int)
      requires appData != null
      modifies appData
      ensures rc == appData.respond(old(appData.log), XDelete(name, syncDir))
      ensures appData.log == old(appData.log) + [XDelete(name, syncDir)]
    {
      rc := appData.Invoke(XDelete(name, syncDir));
    }

    /** `trackingAccess`: pass-through to `pAppData`. */
    method Access(name: string, flags: int) returns (rc: int)
      requires appData != null
      modifies appData
      ensures rc == appData.respond(old(appData.log), XAccess(name, flags))
      ensures appData.log == old(appData.log) + [XAccess(name, flags)]
    {
      rc := appData.Invoke(XAccess(name, flags));
    }

    /** `trackingFullPathname`: pass-through to `pAppData`. */
    method FullPathname(name: string, nOut: int) returns (rc: int)
      requires appData != null
      modifies appData
      ensures rc == appData.respond(old(appData.log), XFullPathname(name, nOut))
      ensures appData.log == old(appData.log) + [XFullPathname(name, nOut)]
    {
      rc := appData.Invoke(XFullPathname(name, nOut));
    }
  }
}
