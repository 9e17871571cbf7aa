/**
 * `initialize_directories` (installd.c lines 366-642) step by step, as the
 * C code runs it: the tree, `version` and `res` are threaded through the
 * kernel calls, the two `readdir` loops are `while` loops, and `goto fail`
 * is an early return with the failure code. Each method is proved to
 * compute exactly what the specification in `Migration` describes.
 */
module InitDirs {
  import opened CString
  import opened FileSystem
  import opened Migration

  /**
   * The loop at lines 479-502: for each entry `readdir` typed as a
   * directory (in `top`, the tree when the users directory was opened),
   * other than "." and "..", prepare `/data/media/<name>`.
   */
  method MediaLoop(fs0: Nodes, names: seq<Name>, top: Nodes, k: Kernel) returns (st: Stage)
    ensures st == UserMedia(fs0, names, top, k)
  {
    var fs := fs0;
    var i := 0;
    while i < |names|
      invariant 0 <= i <= |names|
      invariant UserMedia(fs, names[i..], top, k) == UserMedia(fs0, names, top, k)
    {
      var n := names[i];
      assert names[i..][0] == n && names[i..][1..] == names[i + 1..];
      if IsDir(top, USERS + [n]) && !IsDotEntry(n) {
        var r := PrepareDir(fs, MEDIA + [n], Mode(7, 7, 0), AID_MEDIA_RW, AID_MEDIA_RW, PrepareUserMedia(n) in k.faults);
        if r.None? {
          return Stopped(-8, fs);
        }
        fs := r.value;
      }
      i := i + 1;
    }
    return Going(fs, 0);
  }

  /** Lines 420-443: ensure `/data/media`, then move it aside unless `/data/media.tmp` is there. */
  method SetMediaAside(fs0: Nodes, k: Kernel) returns (st: Stage)
    ensures st == MediaAside(Going(fs0, 0), k)
  {
    var fs := fs0;
    var r := PrepareDir(fs, MEDIA, Mode(7, 7, 0), AID_MEDIA_RW, AID_MEDIA_RW, PrepareMedia in k.faults);
    if r.None? {
      return Stopped(-5, fs);
    }
    fs := r.value;
    if !Exists(fs, MEDIA_TMP) {
      r := Rename(fs, MEDIA, MEDIA_TMP, MoveMediaAside in k.faults);
      if r.None? {
        // `res` still holds its initial -1
        return Stopped(-1, fs);
      }
      fs := r.value;
    }
    return Going(fs, 0);
  }

  /**
   * Lines 445-474: create `/data/media` again, restore its label, and move
   * `/data/media.tmp` into `/data/media/0` when it is there.
   */
  method RemakeMedia(fs0: Nodes, k: Kernel) returns (st: Stage)
    ensures st == MediaRecreate(Going(fs0, 0), k)
  {
    var fs := fs0;
    var r := PrepareDir(fs, MEDIA, Mode(7, 7, 0), AID_MEDIA_RW, AID_MEDIA_RW, RecreateMedia in k.faults);
    if r.None? {
      return Stopped(-6, fs);
    }
    fs := r.value;
    if Restorecon in k.faults {
      return Stopped(-7, fs);
    }
    if Exists(fs, MEDIA_TMP) {
      r := Rename(fs, MEDIA_TMP, OWNER_MEDIA, MoveOwnerMedia in k.faults);
      if r.None? {
        return Stopped(-13, fs);
      }
      fs := r.value;
    }
    return Going(fs, 0);
  }

  /**
   * Lines 420-509, the version-0 step: media aside, media recreated and
   * relabelled, one media directory per user directory; then version 1.
   */
  method UpgradeFromV0(fs0: Nodes, k: Kernel) returns (st: Stage)
    ensures st == MediaUpgrade(Going(fs0, 0), k)
  {
    st := SetMediaAside(fs0, k);
    if st.Stopped? {
      return st;
    }
    st := RemakeMedia(st.fs, k);
    if st.Stopped? {
      return st;
    }
    var fs := st.fs;
    if OpenUsersForMedia !in k.faults && IsDir(fs, USERS) {
      st := MediaLoop(fs, k.listUsers(fs), fs, k);
      if st.Stopped? {
        return st;
      }
      fs := st.fs;
    }
    return Going(fs, 1);
  }

  /**
   * The loop at lines 572-611: for every entry other than "." and "..",
   * prepare the config directory of user `atoi(name)`, then copy the shared
   * keychain directories that exist into it, ignoring copy failures.
   */
  method ConfigLoop(fs0: Nodes, names: seq<Name>, k: Kernel) returns (st: Stage)
    ensures st == UserConfig(fs0, names, k)
  {
    var fs := fs0;
    var i := 0;
    while i < |names|
      invariant 0 <= i <= |names|
      invariant UserConfig(fs, names[i..], k) == UserConfig(fs0, names, k)
    {
      var n := names[i];
      assert names[i..][0] == n && names[i..][1..] == names[i + 1..];
      if !IsDotEntry(n) {
        var id := UserId(n);
        var r := EnsureConfigUserDirs(fs, id, EnsureConfigUser(n) in k.faults);
        if r.None? {
          return Stopped(-10, fs);
        }
        fs := r.value;
        var uid := MultiuserUid(id, AID_SYSTEM);
        if Exists(fs, KEYCHAIN_ADDED) {
          var c := CopyDirFiles(fs, KEYCHAIN_ADDED, CertsAdded(n), uid, uid, CopyAdded(n) in k.faults);
          if c.Some? {
            fs := c.value;
          }
        }
        if Exists(fs, KEYCHAIN_REMOVED) {
          var c := CopyDirFiles(fs, KEYCHAIN_REMOVED, CertsRemoved(n), uid, uid, CopyRemoved(n) in k.faults);
          if c.Some? {
            fs := c.value;
          }
        }
      }
      i := i + 1;
    }
    return Going(fs, 2);
  }

  /**
   * Lines 556-624, the version-2 step: the config loop when the users
   * directory opens, then the shared keychain directories deleted
   * (failures ignored); then version 3.
   */
  method UpgradeFromV2(fs0: Nodes, k: Kernel) returns (st: Stage)
    ensures st == ConfigForUsers(Going(fs0, 2), k)
  {
    var fs := fs0;
    if OpenUsersForConfig !in k.faults && IsDir(fs, USERS) {
      st := ConfigLoop(fs, k.listUsers(fs), k);
      if st.Stopped? {
        return st;
      }
      fs := st.fs;
      if Exists(fs, KEYCHAIN_ADDED) {
        var d := DeleteDirContents(fs, KEYCHAIN_ADDED, true, DeleteAdded in k.faults);
        if d.Some? {
          fs := d.value;
        }
      }
      if Exists(fs, KEYCHAIN_REMOVED) {
        var d := DeleteDirContents(fs, KEYCHAIN_REMOVED, true, DeleteRemoved in k.faults);
        if d.Some? {
          fs := d.value;
        }
      }
    }
    return Going(fs, 3);
  }

  /** Lines 391-411: `/data/user`, made 0711 and owned by system, unless `access` reaches it. */
  method MakeUsersDir(fs0: Nodes, version: int, k: Kernel) returns (st: Stage)
    ensures st == UsersDir(Going(fs0, version), k)
  {
    var fs := fs0;
    if !Reachable(fs, USERS) {
      var r := Mkdir(fs, USERS, Mode(7, 1, 1), MkdirUsers in k.faults);
      if r.None? {
        return Stopped(-2, fs);
      }
      fs := r.value;
      r := Chown(fs, USERS, AID_SYSTEM, AID_SYSTEM, ChownUsers in k.faults);
      if r.None? {
        return Stopped(-3, fs);
      }
      fs := r.value;
      r := Chmod(fs, USERS, Mode(7, 1, 1), ChmodUsers in k.faults);
      if r.None? {
        return Stopped(-4, fs);
      }
      fs := r.value;
    }
    return Going(fs, version);
  }

  /** Lines 412-418: `/data/user/0` linked to `/data/data` unless `access` reaches it. */
  method MakePrimaryLink(fs0: Nodes, version: int, k: Kernel) returns (st: Stage)
    ensures st == PrimaryLink(Going(fs0, version), k)
  {
    var fs := fs0;
    if !Reachable(fs, PRIMARY) {
      var r := Symlink(fs, LEGACY, PRIMARY, LinkPrimary in k.faults);
      if r.None? {
        return Stopped(-18, fs);
      }
      fs := r.value;
    }
    return Going(fs, version);
  }

  /** Lines 511-534, the version-1 step: the owner's OBB directory becomes the shared one; then version 2. */
  method MoveSharedObb(fs0: Nodes, k: Kernel) returns (st: Stage)
    ensures st == ObbMove(Going(fs0, 1), k)
  {
    var fs := fs0;
    if !Exists(fs, MEDIA_OBB) && Exists(fs, OWNER_OBB) {
      var r := Rename(fs, OWNER_OBB, MEDIA_OBB, MoveObb in k.faults);
      if r.None? {
        return Stopped(-14, fs);
      }
      fs := r.value;
    }
    return Going(fs, 2);
  }

  /** Lines 536-554, on every run: user 0's media directory, the shared OBB directory, user 0's config directory. */
  method PrepareUserZero(fs0: Nodes, version: int, k: Kernel) returns (st: Stage)
    ensures st == UserZero(Going(fs0, version), k)
  {
    var fs := fs0;
    var r := EnsureMediaUserDirs(fs, 0, EnsureMediaUser0 in k.faults);
    if r.None? {
      return Stopped(-15, fs);
    }
    fs := r.value;
    r := PrepareDir(fs, MEDIA_OBB, Mode(7, 7, 0), AID_MEDIA_RW, AID_MEDIA_RW, PrepareObb in k.faults);
    if r.None? {
      return Stopped(-9, fs);
    }
    fs := r.value;
    r := EnsureConfigUserDirs(fs, 0, EnsureConfigUser0 in k.faults);
    if r.None? {
      return Stopped(-16, fs);
    }
    return Going(r.value, version);
  }

  /** Lines 626-632: the version written back when it changed. */
  method WriteBackVersion(fs0: Nodes, version: int, oldVersion: int, k: Kernel) returns (st: Stage)
    ensures st == Persist(Going(fs0, version), oldVersion, k)
  {
    if version == oldVersion {
      return Going(fs0, version);
    }
    var r := WriteMarker(fs0, version, WriteVersion in k.faults);
    if r.None? {
      return Stopped(-17, fs0);
    }
    return Going(r.value, version);
  }

  /**
   * `initialize_directories` on the tree `data`: returns `res` and the tree
   * it leaves. It is exactly `Migrate`, so every property proved about that
   * holds of it: 0 only when every step succeeded and a changed version was
   * written back, otherwise the code of the step that failed.
   */
  method InitializeDirectories(data: Nodes, k: Kernel) returns (res: int, fs: Nodes)
    ensures Run(res, fs) == Migrate(data, k)
    ensures res == 0 || res in FAILURE_CODES
    ensures res == 0 && StoredVersion(data, k) in {0, 1, 2} ==> ReadMarker(fs) == Some(3)
    ensures res != 0 || StoredVersion(data, k) !in {0, 1, 2} ==> Keeps(data, fs, MARKER)
  {
    VersionFlow(data, k);
    var oldVersion := StoredVersion(data, k);
    var version := oldVersion;
    if Alloc in k.faults {
      return -11, data;
    }
    var st := MakeUsersDir(data, version, k);
    if st.Stopped? {
      return st.code, st.fs;
    }
    st := MakePrimaryLink(st.fs, version, k);
    if st.Stopped? {
      return st.code, st.fs;
    }
    if version == 0 {
      st := UpgradeFromV0(st.fs, k);
      if st.Stopped? {
        return st.code, st.fs;
      }
      version := 1;
    }
    if version == 1 {
      st := MoveSharedObb(st.fs, k);
      if st.Stopped? {
        return st.code, st.fs;
      }
      version := 2;
    }
    st := PrepareUserZero(st.fs, version, k);
    if st.Stopped? {
      return st.code, st.fs;
    }
    if version == 2 {
      st := UpgradeFromV2(st.fs, k);
      if st.Stopped? {
        return st.code, st.fs;
      }
      version := 3;
    }
    st := WriteBackVersion(st.fs, version, oldVersion, k);
    if st.Stopped? {
      return st.code, st.fs;
    }
    return 0, st.fs;
  }
}
