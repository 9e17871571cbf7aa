/**
 * `initialize_directories` (installd.c lines 366-642) as a specification:
 * the layout-version state machine over the tree below the data root.
 *
 * The run is a chain of phases over a `Stage`: either still going (with
 * the tree and the layout version reached so far) or stopped at a failure
 * with its result code, which every later phase passes through untouched
 * (the `goto fail` of the C code). Which kernel calls fail, and what
 * `readdir` lists, come from a `Kernel` parameter.
 */
module Migration {
  import opened CString
  import opened FileSystem

  /** Owner ids (android_filesystem_config.h) and the per-user uid range. */
  const AID_SYSTEM: nat := 1000
  const AID_MEDIA_RW: nat := 1023
  const AID_EVERYBODY: nat := 9997
  const AID_USER: nat := 100000

  /** Paths below the data root. */
  const USERS: Path := ["user"]
  const LEGACY: Path := ["data"]
  const PRIMARY: Path := ["user", "0"]
  const MARKER: Path := [".layout_version"]
  const MEDIA: Path := ["media"]
  const MEDIA_TMP: Path := ["media.tmp"]
  const OWNER_MEDIA: Path := ["media", "0"]
  const MEDIA_OBB: Path := ["media", "obb"]
  const OWNER_OBB: Path := ["media", "0", "Android", "obb"]
  const KEYCHAIN_ADDED: Path := ["misc", "keychain", "cacerts-added"]
  const KEYCHAIN_REMOVED: Path := ["misc", "keychain", "cacerts-removed"]

  /** `/data/misc/user/<name>`, as the copy targets spell it (with the entry's name). */
  function MiscUser(name: Name): Path
  {
    ["misc", "user", name]
  }

  /** `/data/misc/user/<id>`, as `ensure_config_user_dirs` spells it (with the number). */
  function ConfigDir(id: nat): Path
  {
    ["misc", "user", Dec(id)]
  }

  /** `/data/media/<id>`, as `ensure_media_user_dirs` spells it. */
  function MediaUserDir(id: nat): Path
  {
    MEDIA + [Dec(id)]
  }

  /** The kernel calls of the run that can fail, one per call site (per entry inside the loops). */
  datatype Site =
    | ReadVersion | Alloc
    | MkdirUsers | ChownUsers | ChmodUsers | LinkPrimary
    | PrepareMedia | MoveMediaAside | RecreateMedia | Restorecon | MoveOwnerMedia
    | OpenUsersForMedia | PrepareUserMedia(name: Name)
    | MoveObb | EnsureMediaUser0 | PrepareObb | EnsureConfigUser0
    | OpenUsersForConfig | EnsureConfigUser(name: Name) | CopyAdded(name: Name) | CopyRemoved(name: Name)
    | DeleteAdded | DeleteRemoved
    | WriteVersion

  /**
   * `faults`: the call sites whose kernel call fails; `listUsers`: the
   * entries `readdir` returns for the users directory, in order, given the
   * tree when it is opened ("." and ".." included if the kernel lists them).
   */
  datatype Kernel = Kernel(faults: set<Site>, listUsers: Nodes -> seq<Name>)

  function WithFault(k: Kernel, s: Site): Kernel
  {
    k.(faults := k.faults + {s})
  }

  function WithoutFault(k: Kernel, s: Site): Kernel
  {
    k.(faults := k.faults - {s})
  }

  datatype Stage = Going(fs: Nodes, version: int) | Stopped(code: int, fs: Nodes)

  /** The result of a run: `res` as returned, and the tree left behind. */
  datatype Run = Run(res: int, fs: Nodes)

  /**
   * What `fs_read_atomic_int` reads from the marker: the decimal number it
   * holds; nothing when the marker is missing or not a regular file.
   */
  function ReadMarker(fs: Nodes): (v: Option<int>)
    ensures v.Some? ==> MARKER in fs && fs[MARKER].kind.File?
    ensures forall i :: MARKER in fs && fs[MARKER].kind == File(Dec(i)) ==> v == Some(i)
  {
    DecsParse();
    if MARKER in fs && fs[MARKER].kind.File? then ParseDec(fs[MARKER].kind.data) else None
  }

  lemma DecsParse()
    ensures forall i :: ParseDec(Dec(i)) == Some(i)
  {
    forall i ensures ParseDec(Dec(i)) == Some(i) { DecRoundTrip(i); }
  }

  /** `fs_write_atomic_int`: the marker replaced by a root-owned file holding the number. */
  function WriteMarker(fs: Nodes, v: int, fail: bool): (r: Option<Nodes>)
    ensures r.Some? ==> forall q :: q != MARKER ==> Keeps(fs, r.value, q)
    ensures r.Some? ==> MARKER in r.value && r.value[MARKER] == Node(File(Dec(v)), 0, 0, Mode(6, 0, 0))
    ensures r.Some? <==> !fail && IsDir(fs, []) && !IsDir(fs, MARKER)
  {
    if fail || !IsDir(fs, []) || IsDir(fs, MARKER) then None
    else Some(fs[MARKER := Node(File(Dec(v)), 0, 0, Mode(6, 0, 0))])
  }

  /** A written version reads back unchanged. */
  lemma MarkerRoundTrip(fs: Nodes, v: int)
    requires WriteMarker(fs, v, false).Some?
    ensures ReadMarker(WriteMarker(fs, v, false).value) == Some(v)
  {
    DecRoundTrip(v);
  }

  /** Lines 374-377: a marker that cannot be read counts as version 0. */
  function StoredVersion(fs: Nodes, k: Kernel): (v: int)
    ensures ReadVersion !in k.faults && ReadMarker(fs).Some? ==> v == ReadMarker(fs).value
    ensures ReadVersion in k.faults || ReadMarker(fs).None? ==> v == 0
  {
    if ReadVersion in k.faults then 0
    else match ReadMarker(fs)
      case None => 0
      case Some(v) => v
  }

  /** `multiuser_get_uid`: the uid of app id `app` in user `user`, as a 32-bit `uid_t`. */
  function MultiuserUid(user: nat, app: nat): (uid: nat)
    ensures uid < 0x1_0000_0000
  {
    (user * AID_USER + app % AID_USER) % 0x1_0000_0000
  }

  /**
   * For every user whose uid range fits in `uid_t` (below 42949), the uid
   * splits back into the user (`multiuser_get_user_id`) and the app id
   * (`multiuser_get_app_id`).
   */
  lemma MultiuserUidSplit(user: nat, app: nat)
    requires user < 42949
    ensures MultiuserUid(user, app) / AID_USER == user
    ensures MultiuserUid(user, app) % AID_USER == app % AID_USER
  {
    var a := app % AID_USER;
    var u := user * AID_USER + a;
    assert u < 42949 * AID_USER <= 0x1_0000_0000;
    assert MultiuserUid(user, app) == u;
    assert u == user * AID_USER + a && 0 <= a < AID_USER;
  }

  /** `(uint32_t) atoi(name)`. */
  function UserId(name: Name): (id: nat)
    ensures id < 0x1_0000_0000
    ensures AllDigits(name) ==> id == DigitsValue(name) % 0x1_0000_0000
  {
    Atoi(name) % 0x1_0000_0000
  }

  /** The entry named by `%d` of a user number gives back that number, truncated to `uid_t`. */
  lemma UserIdDec(i: int)
    ensures UserId(Dec(i)) == i % 0x1_0000_0000
  {
    AtoiDec(i);
  }

  /** `ensure_media_user_dirs(id)`: prepare `/data/media/<id>` for the media group. */
  function EnsureMediaUserDirs(fs: Nodes, id: nat, fail: bool): (r: Option<Nodes>)
    ensures r.Some? ==> MediaUserDir(id) in r.value && r.value[MediaUserDir(id)] == MEDIA_NODE
    ensures r.Some? ==> forall q :: q != MediaUserDir(id) ==> Keeps(fs, r.value, q)
    ensures r.Some? ==> Keeps(fs, r.value, MARKER)
    ensures fail ==> r.None?
    ensures r.Some? <==>
              !fail && (IsDir(fs, MediaUserDir(id)) || (MediaUserDir(id) !in fs && IsDir(fs, MEDIA)))
  {
    assert Parent(MediaUserDir(id)) == MEDIA;
    PrepareDir(fs, MediaUserDir(id), Mode(7, 7, 0), AID_MEDIA_RW, AID_MEDIA_RW, fail)
  }

  /** `ensure_config_user_dirs(id)`: prepare `/data/misc/user/<id>` for that user's system uid. */
  function EnsureConfigUserDirs(fs: Nodes, id: nat, fail: bool): (r: Option<Nodes>)
    ensures r.Some? ==> ConfigDir(id) in r.value && r.value[ConfigDir(id)] == ConfigNode(id)
    ensures r.Some? ==> forall q :: q != ConfigDir(id) ==> Keeps(fs, r.value, q)
    ensures r.Some? ==> Keeps(fs, r.value, MARKER)
    ensures fail ==> r.None?
    ensures r.Some? <==>
              !fail && (IsDir(fs, ConfigDir(id)) || (ConfigDir(id) !in fs && IsDir(fs, ["misc", "user"])))
  {
    assert Parent(ConfigDir(id)) == ["misc", "user"];
    PrepareDir(fs, ConfigDir(id), Mode(7, 5, 0), MultiuserUid(id, AID_SYSTEM), MultiuserUid(id, AID_EVERYBODY), fail)
  }

  /** The node `ensure_config_user_dirs(id)` leaves: system:everybody of user `id`, 0750. */
  function ConfigNode(id: nat): Node
  {
    Node(Dir, MultiuserUid(id, AID_SYSTEM), MultiuserUid(id, AID_EVERYBODY), Mode(7, 5, 0))
  }

  /** A directory entry `readdir` reports for the directory itself or its parent. */
  predicate IsDotEntry(name: Name)
  {
    name == "." || name == ".."
  }

  function Otherwise(r: Option<Nodes>, fs: Nodes): Nodes
  {
    if r.Some? then r.value else fs
  }

  /**
   * Lines 391-411: create `/data/user` (0711, system:system) unless
   * `access` reaches something there.
   */
  function UsersDir(s: Stage, k: Kernel): (r: Stage)
    ensures s.Stopped? ==> r == s
    ensures s.Going? && Reachable(s.fs, USERS) ==> r == s
    ensures r.Going? ==> r.version == s.version && Reachable(r.fs, USERS)
    ensures r.Going? && !Reachable(s.fs, USERS) ==>
              r.fs[USERS] == Node(Dir, AID_SYSTEM, AID_SYSTEM, Mode(7, 1, 1))
    ensures r.Stopped? && s.Going? ==> r.code in {-2, -3, -4}
    ensures s.Going? && !Reachable(s.fs, USERS) &&
            (MkdirUsers in k.faults || USERS in s.fs || !IsDir(s.fs, Parent(USERS))) ==>
              r == Stopped(-2, s.fs)
    ensures s.Going? && !Reachable(s.fs, USERS) &&
            MkdirUsers !in k.faults && USERS !in s.fs && IsDir(s.fs, Parent(USERS)) ==>
              (ChownUsers in k.faults ==>
                 r == Stopped(-3, s.fs[USERS := Node(Dir, 0, 0, Mode(7, 1, 1))])) &&
              (ChownUsers !in k.faults && ChmodUsers in k.faults ==>
                 r == Stopped(-4, s.fs[USERS := Node(Dir, AID_SYSTEM, AID_SYSTEM, Mode(7, 1, 1))])) &&
              (ChownUsers !in k.faults && ChmodUsers !in k.faults ==> r.Going?)
    ensures Keeps(s.fs, r.fs, MARKER)
  {
    if s.Stopped? || Reachable(s.fs, USERS) then s
    else match Mkdir(s.fs, USERS, Mode(7, 1, 1), MkdirUsers in k.faults)
      case None => Stopped(-2, s.fs)
      case Some(f1) =>
        match Chown(f1, USERS, AID_SYSTEM, AID_SYSTEM, ChownUsers in k.faults)
        case None => Stopped(-3, f1)
        case Some(f2) =>
          match Chmod(f2, USERS, Mode(7, 1, 1), ChmodUsers in k.faults)
          case None => Stopped(-4, f2)
          case Some(f3) => Going(f3, s.version)
  }

  /**
   * Lines 412-418: link `/data/user/0` to `/data/data` unless `access`
   * reaches something there (a dangling link makes the `symlink` fail).
   */
  function PrimaryLink(s: Stage, k: Kernel): (r: Stage)
    ensures s.Stopped? ==> r == s
    ensures s.Going? && Reachable(s.fs, PRIMARY) ==> r == s
    ensures r.Going? ==> s.Going? && r.version == s.version && Exists(r.fs, PRIMARY)
    ensures r.Going? && !Reachable(s.fs, PRIMARY) ==> r.fs[PRIMARY].kind == Link(LEGACY)
    ensures r.Stopped? && s.Going? ==> r.code == -18
    ensures s.Going? && !Reachable(s.fs, PRIMARY) ==>
              (r.Going? <==> LinkPrimary !in k.faults && PRIMARY !in s.fs && IsDir(s.fs, USERS)) &&
              (r.Going? ==> r.fs == s.fs[PRIMARY := Node(Link(LEGACY), 0, 0, Mode(7, 7, 7))]) &&
              (r.Stopped? ==> r == Stopped(-18, s.fs))
    ensures Keeps(s.fs, r.fs, MARKER)
  {
    assert Parent(PRIMARY) == USERS;
    if s.Stopped? || Reachable(s.fs, PRIMARY) then s
    else match Symlink(s.fs, LEGACY, PRIMARY, LinkPrimary in k.faults)
      case None => Stopped(-18, s.fs)
      case Some(f) => Going(f, s.version)
  }

  /**
   * Lines 420-443 (version 0): ensure `/data/media`, then move it aside to
   * `/data/media.tmp` unless an earlier interrupted upgrade left that.
   * The failed move keeps the initial result -1.
   */
  function MediaAside(s: Stage, k: Kernel): (r: Stage)
    ensures s.Stopped? || s.version != 0 ==> r == s
    ensures r.Going? ==> s.Going? && r.version == s.version
    ensures r.Stopped? && s.Going? ==> r.code in {-5, -1}
    ensures s.Going? && s.version == 0 ==>
              (r == Stopped(-5, s.fs) <==>
                 PrepareDir(s.fs, MEDIA, Mode(7, 7, 0), AID_MEDIA_RW, AID_MEDIA_RW, PrepareMedia in k.faults).None?)
    ensures s.Going? && s.version == 0 && PrepareMedia in k.faults ==> r == Stopped(-5, s.fs)
    ensures s.Going? && s.version == 0 && r.Stopped? && r.code == -1 ==>
              !Exists(s.fs, MEDIA_TMP) && (MoveMediaAside in k.faults || !IsDir(s.fs, Parent(MEDIA_TMP)))
    ensures s.Going? && s.version == 0 && PrepareMedia !in k.faults && IsDir(s.fs, MEDIA) &&
            !Exists(s.fs, MEDIA_TMP) && MoveMediaAside in k.faults ==>
              r.Stopped? && r.code == -1
    ensures Keeps(s.fs, r.fs, MARKER)
  {
    if s.Stopped? || s.version != 0 then s
    else match PrepareDir(s.fs, MEDIA, Mode(7, 7, 0), AID_MEDIA_RW, AID_MEDIA_RW, PrepareMedia in k.faults)
      case None => Stopped(-5, s.fs)
      case Some(f1) =>
        if Exists(f1, MEDIA_TMP) then Going(f1, 0)
        else match Rename(f1, MEDIA, MEDIA_TMP, MoveMediaAside in k.faults)
          case None => Stopped(-1, f1)
          case Some(f2) => Going(f2, 0)
  }

  /**
   * Lines 445-474 (version 0): create `/data/media` again, restore its
   * SELinux label, and move the old contents into `/data/media/0` when
   * `/data/media.tmp` is there.
   */
  function MediaRecreate(s: Stage, k: Kernel): (r: Stage)
    ensures s.Stopped? || s.version != 0 ==> r == s
    ensures r.Going? ==> s.Going? && r.version == s.version
    ensures r.Stopped? && s.Going? ==> r.code in {-6, -7, -13}
    ensures s.Going? && s.version == 0 ==>
              var f := PrepareDir(s.fs, MEDIA, Mode(7, 7, 0), AID_MEDIA_RW, AID_MEDIA_RW, RecreateMedia in k.faults);
              (r == Stopped(-6, s.fs) <==> f.None?) &&
              (f.Some? && Restorecon in k.faults ==> r == Stopped(-7, f.value)) &&
              (r.Stopped? && r.code == -13 ==>
                 f.Some? && Restorecon !in k.faults && Exists(s.fs, MEDIA_TMP))
    ensures s.Going? && s.version == 0 && RecreateMedia in k.faults ==> r == Stopped(-6, s.fs)
    ensures Keeps(s.fs, r.fs, MARKER)
  {
    if s.Stopped? || s.version != 0 then s
    else match PrepareDir(s.fs, MEDIA, Mode(7, 7, 0), AID_MEDIA_RW, AID_MEDIA_RW, RecreateMedia in k.faults)
      case None => Stopped(-6, s.fs)
      case Some(f1) =>
        if Restorecon in k.faults then Stopped(-7, f1)
        else if !Exists(f1, MEDIA_TMP) then Going(f1, 0)
        else match Rename(f1, MEDIA_TMP, OWNER_MEDIA, MoveOwnerMedia in k.faults)
          case None => Stopped(-13, f1)
          case Some(f2) => Going(f2, 0)
  }

  /** The media directories the loop at lines 479-502 may touch: one per directory entry. */
  function MediaTargets(names: seq<Name>, top: Nodes): set<Path>
  {
    set n | n in names && IsDir(top, USERS + [n]) && !IsDotEntry(n) :: MEDIA + [n]
  }

  lemma MediaTargetsTail(names: seq<Name>, top: Nodes)
    requires names != []
    ensures MediaTargets(names[1..], top) <= MediaTargets(names, top)
    ensures IsDir(top, USERS + [names[0]]) && !IsDotEntry(names[0]) ==> MEDIA + [names[0]] in MediaTargets(names, top)
  {
    forall q | q in MediaTargets(names[1..], top)
      ensures q in MediaTargets(names, top)
    {
      var n :| n in names[1..] && IsDir(top, USERS + [n]) && !IsDotEntry(n) && q == MEDIA + [n];
      assert n in names;
    }
  }

  /**
   * The loop at lines 479-502 from the entry `names[0]` on: each entry
   * `readdir` typed as a directory (in `top`, the tree when the directory
   * was opened), other than "." and "..", gets `/data/media/<name>`.
   */
  function UserMedia(fs: Nodes, names: seq<Name>, top: Nodes, k: Kernel): (r: Stage)
    decreases |names|
    ensures r.Stopped? ==> r.code == -8
    ensures r.Going? ==> r.version == 0
    ensures forall q :: q !in MediaTargets(names, top) ==> Keeps(fs, r.fs, q)
  {
    if names == [] then Going(fs, 0)
    else
      var n := names[0];
      MediaTargetsTail(names, top);
      if !IsDir(top, USERS + [n]) || IsDotEntry(n) then UserMedia(fs, names[1..], top, k)
      else match PrepareDir(fs, MEDIA + [n], Mode(7, 7, 0), AID_MEDIA_RW, AID_MEDIA_RW, PrepareUserMedia(n) in k.faults)
        case None => Stopped(-8, fs)
        case Some(f) => UserMedia(f, names[1..], top, k)
  }

  /** Lines 476-509 (version 0): the per-user media loop when the users directory opens; then version 1. */
  function MediaForUsers(s: Stage, k: Kernel): (r: Stage)
    ensures s.Stopped? || s.version != 0 ==> r == s
    ensures r.Going? && s.version == 0 ==> r.version == 1
    ensures r.Going? ==> s.Going?
    ensures r.Stopped? && s.Going? ==> r.code == -8
    ensures Keeps(s.fs, r.fs, MARKER)
  {
    if s.Stopped? || s.version != 0 then s
    else if OpenUsersForMedia in k.faults || !IsDir(s.fs, USERS) then Going(s.fs, 1)
    else match UserMedia(s.fs, k.listUsers(s.fs), s.fs, k)
      case Stopped(c, f) => Stopped(c, f)
      case Going(f, _) => Going(f, 1)
  }

  /**
   * Lines 511-534 (version 1): move the owner's OBB directory to the shared
   * `/data/media/obb` when that is absent and the owner's exists; then version 2.
   */
  function ObbMove(s: Stage, k: Kernel): (r: Stage)
    ensures s.Stopped? || s.version != 1 ==> r == s
    ensures r.Going? && s.version == 1 ==> r.version == 2
    ensures r.Going? ==> s.Going?
    ensures r.Stopped? && s.Going? ==> r.code == -14
    ensures s.Going? && s.version == 1 && !Exists(s.fs, MEDIA_OBB) && Exists(s.fs, OWNER_OBB) &&
            MoveObb in k.faults ==>
              r == Stopped(-14, s.fs)
    ensures s.Going? && s.version == 1 && (Exists(s.fs, MEDIA_OBB) || !Exists(s.fs, OWNER_OBB)) ==>
              r == Going(s.fs, 2)
    ensures Keeps(s.fs, r.fs, MARKER)
  {
    if s.Stopped? || s.version != 1 then s
    else if !Exists(s.fs, MEDIA_OBB) && Exists(s.fs, OWNER_OBB) then
      match Rename(s.fs, OWNER_OBB, MEDIA_OBB, MoveObb in k.faults)
      case None => Stopped(-14, s.fs)
      case Some(f) => Going(f, 2)
    else Going(s.fs, 2)
  }

  /**
   * Lines 517-523: from version 1, an OBB directory under user 0's media
   * and none shared is moved to the shared place, and the step reports version 2.
   */
  lemma ObbMoved(s: Stage, k: Kernel)
    requires s.Going? && s.version == 1 && MoveObb !in k.faults
    requires !Exists(s.fs, MEDIA_OBB) && Exists(s.fs, OWNER_OBB) && IsDir(s.fs, MEDIA)
    ensures ObbMove(s, k) == Going(Move(s.fs, OWNER_OBB, MEDIA_OBB), 2)
  {
    assert Parent(MEDIA_OBB) == MEDIA;
    assert !Within(MEDIA_OBB, OWNER_OBB);
    RenameMoves(s.fs, OWNER_OBB, MEDIA_OBB);
  }

  /** Lines 536-554, on every run: media for user 0, the shared OBB directory, config for user 0. */
  function UserZero(s: Stage, k: Kernel): (r: Stage)
    ensures s.Stopped? ==> r == s
    ensures r.Going? ==> s.Going? && r.version == s.version
    ensures r.Going? ==> MediaUserDir(0) in r.fs && r.fs[MediaUserDir(0)] == MEDIA_NODE
    ensures r.Going? ==> MEDIA_OBB in r.fs && r.fs[MEDIA_OBB] == MEDIA_NODE
    ensures r.Going? ==> ConfigDir(0) in r.fs && r.fs[ConfigDir(0)] == CONFIG_NODE
    ensures r.Stopped? && s.Going? ==> r.code in {-15, -9, -16}
    ensures s.Going? ==>
              var m := EnsureMediaUserDirs(s.fs, 0, EnsureMediaUser0 in k.faults);
              (r == Stopped(-15, s.fs) <==> m.None?) &&
              (m.Some? ==>
                 var o := PrepareDir(m.value, MEDIA_OBB, Mode(7, 7, 0), AID_MEDIA_RW, AID_MEDIA_RW, PrepareObb in k.faults);
                 (r == Stopped(-9, m.value) <==> o.None?) &&
                 (o.Some? ==> (r == Stopped(-16, o.value) <==> EnsureConfigUserDirs(o.value, 0, EnsureConfigUser0 in k.faults).None?)))
    ensures s.Going? && EnsureMediaUser0 in k.faults ==> r == Stopped(-15, s.fs)
    ensures Keeps(s.fs, r.fs, MARKER)
  {
    if s.Stopped? then s
    else match EnsureMediaUserDirs(s.fs, 0, EnsureMediaUser0 in k.faults)
      case None => Stopped(-15, s.fs)
      case Some(f1) =>
        match PrepareDir(f1, MEDIA_OBB, Mode(7, 7, 0), AID_MEDIA_RW, AID_MEDIA_RW, PrepareObb in k.faults)
        case None => Stopped(-9, f1)
        case Some(f2) =>
          match EnsureConfigUserDirs(f2, 0, EnsureConfigUser0 in k.faults)
          case None => Stopped(-16, f2)
          case Some(f3) =>
            assert MediaUserDir(0)[1] != MEDIA_OBB[1] by { assert AllDigits(Dec(0)); assert MEDIA_OBB[1][0] == 'o'; }
            Going(f3, s.version)
  }

  /** `/data/misc/user/<name>/cacerts-added` and `.../cacerts-removed`. */
  function CertsAdded(name: Name): Path
  {
    MiscUser(name) + ["cacerts-added"]
  }

  function CertsRemoved(name: Name): Path
  {
    MiscUser(name) + ["cacerts-removed"]
  }

  /** `copy_dir_files` from `src` to `dst` when `access` finds `src`; a failure is only logged. */
  function CopyIfPresent(fs: Nodes, src: Path, dst: Path, uid: nat, fail: bool): (r: Nodes)
    ensures forall q :: !Within(q, dst) ==> Keeps(fs, r, q)
    ensures forall q :: |q| < |dst| ==> Keeps(fs, r, q)
    ensures dst != [] && !fail && IsDir(fs, src) && IsDir(fs, Parent(dst)) && (dst in fs ==> fs[dst].kind.Dir?) ==>
              IsDir(r, dst) && forall p :: FileIn(fs, p, src) ==>
                dst + [p[|src|]] in r && r[dst + [p[|src|]]] == fs[p].(uid := uid, gid := uid)
  {
    if Exists(fs, src) then Otherwise(CopyDirFiles(fs, src, dst, uid, uid, fail), fs) else fs
  }

  /**
   * Lines 589-610 for one entry: copy the shared keychain additions and
   * removals into `/data/misc/user/<name>`, owned by that user's system uid.
   */
  function CopyCerts(fs: Nodes, name: Name, k: Kernel): (r: Nodes)
    ensures forall q :: !Within(q, CertsAdded(name)) && !Within(q, CertsRemoved(name)) ==> Keeps(fs, r, q)
    ensures forall q :: |q| < 4 ==> Keeps(fs, r, q)
  {
    var uid := MultiuserUid(UserId(name), AID_SYSTEM);
    var f1 := CopyIfPresent(fs, KEYCHAIN_ADDED, CertsAdded(name), uid, CopyAdded(name) in k.faults);
    CopyIfPresent(f1, KEYCHAIN_REMOVED, CertsRemoved(name), uid, CopyRemoved(name) in k.faults)
  }

  /**
   * Lines 581-610, the body of the loop for one entry: the config directory
   * of user `atoi(name)`, then the keychain copies.
   */
  function ConfigUser(fs: Nodes, name: Name, k: Kernel): (r: Option<Nodes>)
    ensures r.Some? ==> IsDir(r.value, ConfigDir(UserId(name)))
    ensures r.Some? ==> r.value[ConfigDir(UserId(name))] == ConfigNode(UserId(name))
    ensures r.Some? ==> forall q :: |q| <= 3 && q != ConfigDir(UserId(name)) ==> Keeps(fs, r.value, q)
    ensures r.Some? ==> Keeps(fs, r.value, MARKER)
    ensures EnsureConfigUser(name) in k.faults ==> r.None?
  {
    match EnsureConfigUserDirs(fs, UserId(name), EnsureConfigUser(name) in k.faults)
    case None => None
    case Some(f) => Some(CopyCerts(f, name, k))
  }

  /**
   * The loop at lines 572-611 from the entry `names[0]` on: every entry
   * other than "." and "..", of any type, gets the config directory of
   * user `atoi(name)` and the keychain copies.
   */
  function UserConfig(fs: Nodes, names: seq<Name>, k: Kernel): (r: Stage)
    decreases |names|
    ensures r.Stopped? ==> r.code == -10
    ensures r.Going? ==> r.version == 2
    ensures Keeps(fs, r.fs, MARKER)
  {
    if names == [] then Going(fs, 2)
    else
      var n := names[0];
      if IsDotEntry(n) then UserConfig(fs, names[1..], k)
      else match ConfigUser(fs, n, k)
        case None => Stopped(-10, fs)
        case Some(f) => UserConfig(f, names[1..], k)
  }

  /** `delete_dir_contents(p, 1, 0)` when `access` finds `p`; a failure is ignored. */
  function DeleteIfPresent(fs: Nodes, p: Path, fail: bool): (r: Nodes)
    ensures forall q :: !Within(q, p) ==> Keeps(fs, r, q)
    ensures !fail ==> forall q :: q in r ==> !Within(q, p) || q in fs
    ensures !fail && Exists(fs, p) ==> forall q :: q in r ==> !Within(q, p)
    ensures !fail ==> !Exists(r, p)
  {
    if Exists(fs, p) then Otherwise(DeleteDirContents(fs, p, true, fail), fs) else fs
  }

  /** Lines 614-619: the shared keychain directories are deleted, contents and all. */
  function ClearKeychain(fs: Nodes, k: Kernel): (r: Nodes)
    ensures forall q :: !Within(q, KEYCHAIN_ADDED) && !Within(q, KEYCHAIN_REMOVED) ==> Keeps(fs, r, q)
    ensures DeleteAdded !in k.faults ==> !Exists(r, KEYCHAIN_ADDED)
    ensures DeleteRemoved !in k.faults ==> !Exists(r, KEYCHAIN_REMOVED)
    ensures DeleteAdded !in k.faults && Exists(fs, KEYCHAIN_ADDED) ==> forall q :: q in r ==> !Within(q, KEYCHAIN_ADDED)
    ensures DeleteRemoved !in k.faults && Exists(fs, KEYCHAIN_REMOVED) ==> forall q :: q in r ==> !Within(q, KEYCHAIN_REMOVED)
  {
    var f1 := DeleteIfPresent(fs, KEYCHAIN_ADDED, DeleteAdded in k.faults);
    DeleteIfPresent(f1, KEYCHAIN_REMOVED, DeleteRemoved in k.faults)
  }

  /** Lines 556-624 (version 2): the per-user config loop and the keychain clean-up; then version 3. */
  function ConfigForUsers(s: Stage, k: Kernel): (r: Stage)
    ensures s.Stopped? || s.version != 2 ==> r == s
    ensures r.Going? && s.version == 2 ==> r.version == 3
    ensures r.Going? ==> s.Going?
    ensures r.Stopped? && s.Going? ==> r.code == -10
    ensures Keeps(s.fs, r.fs, MARKER)
  {
    if s.Stopped? || s.version != 2 then s
    else if OpenUsersForConfig in k.faults || !IsDir(s.fs, USERS) then Going(s.fs, 3)
    else match UserConfig(s.fs, k.listUsers(s.fs), k)
      case Stopped(c, f) => Stopped(c, f)
      case Going(f, _) => Going(ClearKeychain(f, k), 3)
  }

  /** Lines 626-632: write the version back when it changed. */
  function Persist(s: Stage, prior: int, k: Kernel): (r: Stage)
    ensures s.Stopped? || (s.Going? && s.version == prior) ==> r == s
    ensures r.Going? ==> s.Going? && r.version == s.version
    ensures r.Stopped? && s.Going? ==> r.code == -17
    ensures r.Going? && s.version != prior ==> ReadMarker(r.fs) == Some(s.version)
    ensures r.Stopped? ==> Keeps(s.fs, r.fs, MARKER)
    ensures s.Going? && s.version != prior ==>
              (r.Going? <==> WriteVersion !in k.faults && IsDir(s.fs, []) && !IsDir(s.fs, MARKER)) &&
              (r.Going? ==> forall q :: q != MARKER ==> Keeps(s.fs, r.fs, q)) &&
              (r.Stopped? ==> r == Stopped(-17, s.fs))
  {
    if s.Stopped? || s.version == prior then s
    else match WriteMarker(s.fs, s.version, WriteVersion in k.faults)
      case None => Stopped(-17, s.fs)
      case Some(f) =>
        MarkerRoundTrip(s.fs, s.version);
        Going(f, s.version)
  }

  /** Lines 420-509: the whole version-0 step; it leaves the layout at version 1. */
  function MediaUpgrade(s: Stage, k: Kernel): (r: Stage)
    ensures s.Stopped? || s.version != 0 ==> r == s
    ensures r.Going? ==> s.Going? && (s.version == 0 ==> r.version == 1)
    ensures r.Stopped? && s.Going? ==> r.code in {-5, -1, -6, -7, -13, -8}
    ensures Keeps(s.fs, r.fs, MARKER)
  {
    MediaForUsers(MediaRecreate(MediaAside(s, k), k), k)
  }

  /**
   * `initialize_directories` on the tree `fs`: every failure has its own
   * negative code, and 0 means that every step succeeded.
   */
  function Migrate(fs: Nodes, k: Kernel): (r: Run)
    ensures r.res == 0 || r.res in FAILURE_CODES
    ensures Alloc in k.faults ==> r == Run(-11, fs)
  {
    var prior := StoredVersion(fs, k);
    var s0 := if Alloc in k.faults then Stopped(-11, fs) else Going(fs, prior);
    var s := Persist(ConfigForUsers(UserZero(ObbMove(MediaUpgrade(PrimaryLink(UsersDir(s0, k), k), k), k), k), k), prior, k);
    Run(if s.Going? then 0 else s.code, s.fs)
  }

  /** The negative codes the run can return (-12 and -77 belong to a debug build). */
  const FAILURE_CODES: set<int> := {-1, -2, -3, -4, -5, -6, -7, -8, -9, -10, -11, -13, -14, -15, -16, -17, -18}

  /**
   * Lines 374-377, 420, 515, 556 and 626-632: from a stored version of 0, 1
   * or 2 every later step runs and a successful run leaves the marker
   * reading 3; from any other version no versioned step runs and the
   * marker is never rewritten; a failed run never rewrites it either.
   */
  lemma VersionFlow(fs: Nodes, k: Kernel)
    ensures var r := Migrate(fs, k);
            r.res == 0 && StoredVersion(fs, k) in {0, 1, 2} ==> ReadMarker(r.fs) == Some(3)
    ensures StoredVersion(fs, k) !in {0, 1, 2} ==> Keeps(fs, Migrate(fs, k).fs, MARKER)
    ensures Migrate(fs, k).res != 0 ==> Keeps(fs, Migrate(fs, k).fs, MARKER)
  {
  }

  /**
   * Lines 438-444: the move of `/data/media` to `/data/media.tmp` is
   * attempted only when `media.tmp` is absent; then its failure stops the
   * run with -1, otherwise nothing depends on it.
   */
  lemma MediaAsideGuard(s: Stage, k: Kernel)
    requires s.Going? && s.version == 0
    ensures Exists(s.fs, MEDIA_TMP) ==>
              MediaAside(s, WithFault(k, MoveMediaAside)) == MediaAside(s, WithoutFault(k, MoveMediaAside))
    ensures var p := PrepareDir(s.fs, MEDIA, Mode(7, 7, 0), AID_MEDIA_RW, AID_MEDIA_RW, PrepareMedia in k.faults);
            !Exists(s.fs, MEDIA_TMP) && p.Some? ==> MediaAside(s, WithFault(k, MoveMediaAside)) == Stopped(-1, p.value)
  {
  }

  /**
   * Lines 467-474: the move of `/data/media.tmp` into `/data/media/0` is
   * attempted only when `media.tmp` is there.
   */
  lemma OwnerMediaGuard(s: Stage, k: Kernel)
    requires s.Going? && s.version == 0
    ensures !Exists(s.fs, MEDIA_TMP) ==>
              MediaRecreate(s, WithFault(k, MoveOwnerMedia)) == MediaRecreate(s, WithoutFault(k, MoveOwnerMedia))
    ensures var p := PrepareDir(s.fs, MEDIA, Mode(7, 7, 0), AID_MEDIA_RW, AID_MEDIA_RW, RecreateMedia in k.faults);
            Exists(s.fs, MEDIA_TMP) && p.Some? && Restorecon !in k.faults ==>
              MediaRecreate(s, WithFault(k, MoveOwnerMedia)) == Stopped(-13, p.value)
  {
  }

  /**
   * Lines 524-531: the owner's OBB directory is moved only when the shared
   * one is absent and the owner's is there.
   */
  lemma ObbGuard(s: Stage, k: Kernel)
    requires s.Going? && s.version == 1
    ensures Exists(s.fs, MEDIA_OBB) || !Exists(s.fs, OWNER_OBB) ==>
              ObbMove(s, WithFault(k, MoveObb)) == ObbMove(s, WithoutFault(k, MoveObb)) == Going(s.fs, 2)
    ensures !Exists(s.fs, MEDIA_OBB) && Exists(s.fs, OWNER_OBB) ==> ObbMove(s, WithFault(k, MoveObb)) == Stopped(-14, s.fs)
  {
  }

  /**
   * When `/data/media` is a directory, nothing but directories is in the
   * way, and no preparation fails, the loop at lines 479-502 leaves a
   * media directory for every entry typed as a directory.
   */
  lemma {:induction false} UserMediaCreates(fs: Nodes, names: seq<Name>, top: Nodes, k: Kernel)
    requires IsDir(fs, MEDIA)
    requires forall n :: n in names && IsDir(top, USERS + [n]) && !IsDotEntry(n) ==>
               PrepareUserMedia(n) !in k.faults && (MEDIA + [n] in fs ==> fs[MEDIA + [n]].kind.Dir?)
    decreases |names|
    ensures UserMedia(fs, names, top, k).Going?
    ensures forall n :: n in names && IsDir(top, USERS + [n]) && !IsDotEntry(n) ==>
              MEDIA + [n] in UserMedia(fs, names, top, k).fs &&
              UserMedia(fs, names, top, k).fs[MEDIA + [n]] == Node(Dir, AID_MEDIA_RW, AID_MEDIA_RW, Mode(7, 7, 0))
  {
    if names != [] {
      var n := names[0];
      var rest := names[1..];
      assert forall m :: m in rest ==> m in names;
      if !IsDir(top, USERS + [n]) || IsDotEntry(n) {
        UserMediaCreates(fs, rest, top, k);
      } else {
        var f := PrepareDir(fs, MEDIA + [n], Mode(7, 7, 0), AID_MEDIA_RW, AID_MEDIA_RW, false).value;
        assert UserMedia(fs, names, top, k) == UserMedia(f, rest, top, k);
        assert MEDIA != MEDIA + [n];
        UserMediaCreates(f, rest, top, k);
        var r := UserMedia(f, rest, top, k);
        if MEDIA + [n] !in MediaTargets(rest, top) {
          assert Keeps(f, r.fs, MEDIA + [n]);
        } else {
          var m :| m in rest && IsDir(top, USERS + [m]) && !IsDotEntry(m) && MEDIA + [n] == MEDIA + [m];
          assert (MEDIA + [n])[1] == n && (MEDIA + [m])[1] == m;
        }
      }
    }
  }

  /** The loop at lines 572-611 leaves every directory it finds one level below `misc` (or anywhere at that depth) a directory. */
  lemma {:induction false} UserConfigKeepsDirs(fs: Nodes, names: seq<Name>, k: Kernel)
    decreases |names|
    ensures forall q :: |q| == 3 && IsDir(fs, q) ==> IsDir(UserConfig(fs, names, k).fs, q)
  {
    if names != [] {
      var n := names[0];
      if IsDotEntry(n) {
        UserConfigKeepsDirs(fs, names[1..], k);
      } else {
        match ConfigUser(fs, n, k)
        case None =>
        case Some(f) =>
          UserConfigKeepsDirs(f, names[1..], k);
      }
    }
  }

  /**
   * Line 584 for one entry: user `id`'s config directory, as
   * `ensure_config_user_dirs(id)` leaves it, stays so, because two entries
   * naming the same directory name the same user.
   */
  lemma ConfigUserKeepsNode(fs: Nodes, n: Name, k: Kernel, id: nat)
    requires ConfigDir(id) in fs && fs[ConfigDir(id)] == ConfigNode(id)
    requires ConfigUser(fs, n, k).Some?
    ensures ConfigDir(id) in ConfigUser(fs, n, k).value && ConfigUser(fs, n, k).value[ConfigDir(id)] == ConfigNode(id)
  {
    if ConfigDir(UserId(n)) == ConfigDir(id) {
      assert Dec(UserId(n)) == ConfigDir(UserId(n))[2];
      DecInjective(UserId(n), id);
    }
  }

  /** The loop at lines 572-611 keeps every user's config directory as `ensure_config_user_dirs` left it. */
  lemma {:induction false} UserConfigKeepsNode(fs: Nodes, names: seq<Name>, k: Kernel, id: nat)
    requires ConfigDir(id) in fs && fs[ConfigDir(id)] == ConfigNode(id)
    decreases |names|
    ensures var r := UserConfig(fs, names, k).fs;
            ConfigDir(id) in r && r[ConfigDir(id)] == ConfigNode(id)
  {
    if names != [] {
      var n := names[0];
      if IsDotEntry(n) {
        UserConfigKeepsNode(fs, names[1..], k, id);
      } else if ConfigUser(fs, n, k).Some? {
        ConfigUserKeepsNode(fs, n, k, id);
        UserConfigKeepsNode(ConfigUser(fs, n, k).value, names[1..], k, id);
      }
    }
  }

  /**
   * Lines 572-587: a loop that runs to its end has made a config directory
   * for the user number of EVERY entry other than "." and "..", whatever
   * its type, owned by that user's system uid and everybody gid, mode 0750.
   */
  lemma {:induction false} UserConfigCreates(fs: Nodes, names: seq<Name>, k: Kernel)
    decreases |names|
    ensures UserConfig(fs, names, k).Going? ==>
              forall n :: n in names && !IsDotEntry(n) ==>
                ConfigDir(UserId(n)) in UserConfig(fs, names, k).fs &&
                UserConfig(fs, names, k).fs[ConfigDir(UserId(n))] == ConfigNode(UserId(n))
  {
    if names != [] {
      var n := names[0];
      var rest := names[1..];
      assert forall m :: m in names ==> m == n || m in rest;
      if IsDotEntry(n) {
        UserConfigCreates(fs, rest, k);
      } else {
        match ConfigUser(fs, n, k)
        case None =>
        case Some(g) =>
          UserConfigCreates(g, rest, k);
          UserConfigKeepsNode(g, rest, k, UserId(n));
      }
    }
  }

  /** A data partition as first booted: the root, `/data/data` and `/data/misc/user`, no marker. */
  function FreshData(): Nodes
  {
    map[[] := Node(Dir, AID_SYSTEM, AID_SYSTEM, Mode(7, 7, 1)),
        LEGACY := Node(Dir, AID_SYSTEM, AID_SYSTEM, Mode(7, 7, 1)),
        ["misc"] := Node(Dir, AID_SYSTEM, AID_SYSTEM, Mode(7, 7, 1)),
        ["misc", "user"] := Node(Dir, AID_SYSTEM, AID_SYSTEM, Mode(7, 1, 1))]
  }

  /** A kernel where nothing fails and the users directory lists only "." and "..". */
  function Quiet(): Kernel
  {
    Kernel({}, (fs: Nodes) => [".", ".."])
  }

  /** What `fs_prepare_dir` leaves for a media directory (0770 media_rw) and user 0's config directory (0750 system:everybody). */
  const MEDIA_NODE: Node := Node(Dir, AID_MEDIA_RW, AID_MEDIA_RW, Mode(7, 7, 0))
  const CONFIG_NODE: Node := Node(Dir, AID_SYSTEM, AID_EVERYBODY, Mode(7, 5, 0))

  /** The tree after `/data/user` and `/data/user/0` exist. */
  function FreshLinked(): Nodes
  {
    FreshData()[USERS := Node(Dir, AID_SYSTEM, AID_SYSTEM, Mode(7, 1, 1))][PRIMARY := Node(Link(LEGACY), 0, 0, Mode(7, 7, 7))]
  }

  /** The tree after the version-0 step. */
  function FreshMedia(): Nodes
  {
    FreshLinked()[MEDIA := MEDIA_NODE][OWNER_MEDIA := MEDIA_NODE]
  }

  /** The tree after the steps that run every time. */
  function FreshUserZero(): Nodes
  {
    FreshMedia()[MEDIA_OBB := MEDIA_NODE][ConfigDir(0) := CONFIG_NODE]
  }

  lemma FreshLinkStep()
    ensures PrimaryLink(UsersDir(Going(FreshData(), 0), Quiet()), Quiet()) == Going(FreshLinked(), 0)
  {
    var fs := FreshData();
    assert Parent(USERS) == [] && Parent(PRIMARY) == USERS;
    var f1 := fs[USERS := Node(Dir, 0, 0, Mode(7, 1, 1))];
    assert Mkdir(fs, USERS, Mode(7, 1, 1), false) == Some(f1);
    var f2 := f1[USERS := Node(Dir, AID_SYSTEM, AID_SYSTEM, Mode(7, 1, 1))];
    assert Chown(f1, USERS, AID_SYSTEM, AID_SYSTEM, false) == Some(f2);
    assert f2[USERS := f2[USERS].(mode := Mode(7, 1, 1))] == f2;
    assert f2 == fs[USERS := Node(Dir, AID_SYSTEM, AID_SYSTEM, Mode(7, 1, 1))];
    assert UsersDir(Going(fs, 0), Quiet()) == Going(f2, 0);
    assert !Reachable(f2, PRIMARY);
  }

  /** The tree once `/data/media` has been moved aside. */
  function FreshAside(): Nodes
  {
    FreshLinked()[MEDIA_TMP := MEDIA_NODE]
  }

  /** The media directory is a leaf and `media.tmp` is free. */
  lemma FreshAsideLeaf()
    ensures var f1 := FreshLinked()[MEDIA := MEDIA_NODE];
            Childless(f1, MEDIA) && (forall q :: q in f1 ==> !Within(q, MEDIA_TMP)) && IsDir(f1, [])
  {
    var f1 := FreshLinked()[MEDIA := MEDIA_NODE];
    assert f1.Keys == {[], LEGACY, ["misc"], ["misc", "user"], USERS, PRIMARY, MEDIA};
    ChildlessTop(f1, "media");
    OutsideTop(f1, "media.tmp");
  }

  lemma FreshAsideRename()
    ensures var f1 := FreshLinked()[MEDIA := MEDIA_NODE];
            Rename(f1, MEDIA, MEDIA_TMP, false) == Some(Move(f1, MEDIA, MEDIA_TMP))
  {
    var f1 := FreshLinked()[MEDIA := MEDIA_NODE];
    assert MEDIA_TMP !in f1;
    assert Parent(MEDIA_TMP) == [] && IsDir(f1, []);
    assert MEDIA_TMP[..1] == MEDIA_TMP && |MEDIA_TMP[0]| != |MEDIA[0]|;
    RenameMoves(f1, MEDIA, MEDIA_TMP);
  }

  lemma FreshAsideMoved()
    ensures Move(FreshLinked()[MEDIA := MEDIA_NODE], MEDIA, MEDIA_TMP) == FreshAside()
  {
    var f1 := FreshLinked()[MEDIA := MEDIA_NODE];
    FreshAsideLeaf();
    MoveLeaf(f1, MEDIA, MEDIA_TMP);
    assert MEDIA !in FreshLinked();
    AddRemove(FreshLinked(), MEDIA, MEDIA_NODE);
  }

  lemma FreshAsideRenamed()
    ensures Rename(FreshLinked()[MEDIA := MEDIA_NODE], MEDIA, MEDIA_TMP, false) == Some(FreshAside())
  {
    FreshAsideRename();
    FreshAsideMoved();
  }

  lemma FreshAsidePrepared()
    ensures PrepareDir(FreshLinked(), MEDIA, Mode(7, 7, 0), AID_MEDIA_RW, AID_MEDIA_RW, false) == Some(FreshLinked()[MEDIA := MEDIA_NODE])
    ensures !Exists(FreshLinked()[MEDIA := MEDIA_NODE], MEDIA_TMP)
  {
    assert Parent(MEDIA) == [];
  }

  lemma FreshAsideStep()
    ensures MediaAside(Going(FreshLinked(), 0), Quiet()) == Going(FreshAside(), 0)
  {
    FreshAsidePrepared();
    FreshAsideRenamed();
  }

  /** `media.tmp` is a leaf and nothing is at or below `/data/media/0`. */
  lemma FreshRecreateLeaf()
    ensures var f1 := FreshAside()[MEDIA := MEDIA_NODE];
            Childless(f1, MEDIA_TMP) && (forall q :: q in f1 ==> !Within(q, OWNER_MEDIA)) && IsDir(f1, MEDIA)
  {
    var f1 := FreshAside()[MEDIA := MEDIA_NODE];
    assert f1.Keys == {[], LEGACY, ["misc"], ["misc", "user"], USERS, PRIMARY, MEDIA_TMP, MEDIA};
    ChildlessTop(f1, "media.tmp");
    OutsideSecond(f1, "media", "0");
  }

  lemma FreshRecreateRename()
    ensures var f1 := FreshAside()[MEDIA := MEDIA_NODE];
            Rename(f1, MEDIA_TMP, OWNER_MEDIA, false) == Some(Move(f1, MEDIA_TMP, OWNER_MEDIA))
  {
    var f1 := FreshAside()[MEDIA := MEDIA_NODE];
    assert OWNER_MEDIA !in f1 && MEDIA_TMP in f1;
    assert Parent(OWNER_MEDIA) == MEDIA && IsDir(f1, MEDIA);
    assert |OWNER_MEDIA| == 2 && |MEDIA_TMP| == 1;
    RenameMoves(f1, MEDIA_TMP, OWNER_MEDIA);
  }

  lemma FreshRecreateMoved()
    ensures Move(FreshAside()[MEDIA := MEDIA_NODE], MEDIA_TMP, OWNER_MEDIA) == (FreshAside()[MEDIA := MEDIA_NODE] - {MEDIA_TMP})[OWNER_MEDIA := MEDIA_NODE]
  {
    FreshRecreateLeaf();
    MoveLeaf(FreshAside()[MEDIA := MEDIA_NODE], MEDIA_TMP, OWNER_MEDIA);
  }

  lemma FreshRecreateDropped()
    ensures FreshAside()[MEDIA := MEDIA_NODE] - {MEDIA_TMP} == FreshLinked()[MEDIA := MEDIA_NODE]
  {
    var f0 := FreshLinked()[MEDIA := MEDIA_NODE];
    assert MEDIA_TMP !in f0;
    assert FreshAside()[MEDIA := MEDIA_NODE] == f0[MEDIA_TMP := MEDIA_NODE];
    AddRemove(f0, MEDIA_TMP, MEDIA_NODE);
  }

  lemma FreshRecreateRenamed()
    ensures Rename(FreshAside()[MEDIA := MEDIA_NODE], MEDIA_TMP, OWNER_MEDIA, false) == Some(FreshMedia())
  {
    FreshRecreateRename();
    FreshRecreateMoved();
    FreshRecreateDropped();
  }

  lemma FreshRecreatePrepared()
    ensures PrepareDir(FreshAside(), MEDIA, Mode(7, 7, 0), AID_MEDIA_RW, AID_MEDIA_RW, false) == Some(FreshAside()[MEDIA := MEDIA_NODE])
    ensures Exists(FreshAside()[MEDIA := MEDIA_NODE], MEDIA_TMP)
  {
    assert Parent(MEDIA) == [];
  }

  lemma FreshRecreateStep()
    ensures MediaRecreate(Going(FreshAside(), 0), Quiet()) == Going(FreshMedia(), 0)
  {
    FreshRecreatePrepared();
    FreshRecreateRenamed();
  }

  lemma FreshMediaStep()
    ensures MediaUpgrade(Going(FreshLinked(), 0), Quiet()) == Going(FreshMedia(), 1)
  {
    FreshAsideStep();
    FreshRecreateStep();
    FreshMediaForUsers();
  }

  lemma FreshMediaForUsers()
    ensures MediaForUsers(Going(FreshMedia(), 0), Quiet()) == Going(FreshMedia(), 1)
  {
    assert UserMedia(FreshMedia(), [".", ".."], FreshMedia(), Quiet()) == Going(FreshMedia(), 0);
  }

  lemma FreshObbStep()
    ensures ObbMove(Going(FreshMedia(), 1), Quiet()) == Going(FreshMedia(), 2)
  {
    assert MEDIA_OBB !in FreshMedia() && OWNER_OBB !in FreshMedia();
  }

  lemma FreshMediaUserZero()
    ensures EnsureMediaUserDirs(FreshMedia(), 0, false) == Some(FreshMedia())
  {
    assert Dec(0) == "0";
    assert MediaUserDir(0) == OWNER_MEDIA;
    assert FreshMedia()[OWNER_MEDIA := MEDIA_NODE] == FreshMedia();
  }

  lemma FreshObbPrepared()
    ensures PrepareDir(FreshMedia(), MEDIA_OBB, Mode(7, 7, 0), AID_MEDIA_RW, AID_MEDIA_RW, false) ==
            Some(FreshMedia()[MEDIA_OBB := MEDIA_NODE])
  {
    assert Parent(MEDIA_OBB) == MEDIA && MEDIA_OBB !in FreshMedia();
  }

  lemma FreshConfigZero()
    ensures EnsureConfigUserDirs(FreshMedia()[MEDIA_OBB := MEDIA_NODE], 0, false) == Some(FreshUserZero())
  {
    assert Dec(0) == "0";
    assert Parent(ConfigDir(0)) == ["misc", "user"];
    assert ConfigDir(0) !in FreshMedia()[MEDIA_OBB := MEDIA_NODE];
    assert MultiuserUid(0, AID_SYSTEM) == AID_SYSTEM && MultiuserUid(0, AID_EVERYBODY) == AID_EVERYBODY;
  }

  lemma FreshUserZeroStep()
    ensures UserZero(ObbMove(Going(FreshMedia(), 1), Quiet()), Quiet()) == Going(FreshUserZero(), 2)
  {
    FreshObbStep();
    FreshMediaUserZero();
    FreshObbPrepared();
    FreshConfigZero();
  }

  lemma FreshConfigStep()
    ensures ConfigForUsers(Going(FreshUserZero(), 2), Quiet()) == Going(FreshUserZero(), 3)
  {
    var fs := FreshUserZero();
    assert IsDir(fs, USERS);
    assert UserConfig(fs, [".", ".."], Quiet()) == Going(fs, 2);
    assert KEYCHAIN_ADDED !in fs && KEYCHAIN_REMOVED !in fs;
  }

  lemma FreshPersistStep()
    ensures Persist(Going(FreshUserZero(), 3), 0, Quiet()) == Going(FreshUserZero()[MARKER := Node(File(Dec(3)), 0, 0, Mode(6, 0, 0))], 3)
  {
    assert IsDir(FreshUserZero(), []) && MARKER !in FreshUserZero();
  }

  /**
   * A first boot with nothing failing: the run returns 0, moves the
   * (empty) media directory into `/data/media/0`, prepares user 0, and
   * leaves the marker reading 3.
   */
  lemma FreshInstall()
    ensures Migrate(FreshData(), Quiet()) == Run(0, FreshDone())
  {
    assert MARKER !in FreshData();
    assert StoredVersion(FreshData(), Quiet()) == 0;
    FreshLinkStep();
    FreshMediaStep();
    FreshUserZeroStep();
    FreshConfigStep();
    FreshPersistStep();
  }

  /**
   * Lines 412-418: when `/data/user/0` is a link whose target is missing,
   * `access` fails and the `symlink` meets an existing name, so the run
   * stops with -18 whatever else the kernel does.
   */
  lemma DanglingPrimaryLink(s: Stage, k: Kernel)
    requires s.Going? && PRIMARY in s.fs && s.fs[PRIMARY].kind.Link? && s.fs[PRIMARY].kind.target !in s.fs
    ensures PrimaryLink(s, k) == Stopped(-18, s.fs)
  {
  }

  /** Lines 536-554 change nothing once the three directories of user 0 are in place. */
  lemma UserZeroSettled(fs: Nodes, v: int, k: Kernel)
    requires EnsureMediaUser0 !in k.faults && PrepareObb !in k.faults && EnsureConfigUser0 !in k.faults
    requires MediaUserDir(0) in fs && fs[MediaUserDir(0)] == MEDIA_NODE
    requires MEDIA_OBB in fs && fs[MEDIA_OBB] == MEDIA_NODE
    requires ConfigDir(0) in fs && fs[ConfigDir(0)] == CONFIG_NODE
    ensures UserZero(Going(fs, v), k) == Going(fs, v)
  {
    PrepareDirSettled(fs, MediaUserDir(0), Mode(7, 7, 0), AID_MEDIA_RW, AID_MEDIA_RW);
    PrepareDirSettled(fs, MEDIA_OBB, Mode(7, 7, 0), AID_MEDIA_RW, AID_MEDIA_RW);
    assert MultiuserUid(0, AID_SYSTEM) == AID_SYSTEM && MultiuserUid(0, AID_EVERYBODY) == AID_EVERYBODY;
    PrepareDirSettled(fs, ConfigDir(0), Mode(7, 5, 0), AID_SYSTEM, AID_EVERYBODY);
  }

  /** The tree a quiet first boot leaves behind. */
  function FreshDone(): Nodes
  {
    FreshUserZero()[MARKER := Node(File(Dec(3)), 0, 0, Mode(6, 0, 0))]
  }

  lemma FreshDoneReads()
    ensures StoredVersion(FreshDone(), Quiet()) == 3
    ensures Reachable(FreshDone(), USERS) && Reachable(FreshDone(), PRIMARY)
  {
    DecRoundTrip(3);
  }

  lemma FreshDoneSettled()
    ensures UserZero(Going(FreshDone(), 3), Quiet()) == Going(FreshDone(), 3)
  {
    assert Dec(0) == "0";
    assert MediaUserDir(0) == OWNER_MEDIA;
    UserZeroSettled(FreshDone(), 3, Quiet());
  }

  /** Booting again after a quiet first boot returns 0 and changes nothing. */
  lemma FreshSettles()
    ensures Migrate(FreshDone(), Quiet()) == Run(0, FreshDone())
  {
    FreshDoneReads();
    FreshDoneSettled();
  }

  /**
   * Lines 596-605: when the user's directory under `/data/misc/user` is
   * there and the copy does not fail, each regular file of the shared
   * `cacerts-added` directory is copied into it, owned by the user's system uid.
   */
  lemma AddedCertCopied(fs: Nodes, name: Name, k: Kernel, p: Path)
    requires IsDir(fs, MiscUser(name)) && IsDir(fs, KEYCHAIN_ADDED) && CopyAdded(name) !in k.faults
    requires CertsAdded(name) in fs ==> fs[CertsAdded(name)].kind.Dir?
    requires FileIn(fs, p, KEYCHAIN_ADDED)
    ensures var r := CopyCerts(fs, name, k);
            var uid := MultiuserUid(UserId(name), AID_SYSTEM);
            CertsAdded(name) + [p[3]] in r && r[CertsAdded(name) + [p[3]]] == fs[p].(uid := uid, gid := uid)
  {
    var uid := MultiuserUid(UserId(name), AID_SYSTEM);
    assert Parent(CertsAdded(name)) == MiscUser(name);
    var f1 := CopyIfPresent(fs, KEYCHAIN_ADDED, CertsAdded(name), uid, false);
    var q := CertsAdded(name) + [p[3]];
    assert q in f1 && f1[q] == fs[p].(uid := uid, gid := uid);
    assert !Within(q, CertsRemoved(name)) by {
      assert q[3] == CertsAdded(name)[3] != CertsRemoved(name)[3];
    }
  }

  /** Lines 606-610: the same for the shared `cacerts-removed` directory. */
  lemma RemovedCertCopied(fs: Nodes, name: Name, k: Kernel, p: Path)
    requires IsDir(fs, MiscUser(name)) && IsDir(fs, KEYCHAIN_REMOVED) && CopyRemoved(name) !in k.faults
    requires CertsRemoved(name) in fs ==> fs[CertsRemoved(name)].kind.Dir?
    requires FileIn(fs, p, KEYCHAIN_REMOVED)
    ensures var r := CopyCerts(fs, name, k);
            var uid := MultiuserUid(UserId(name), AID_SYSTEM);
            CertsRemoved(name) + [p[3]] in r && r[CertsRemoved(name) + [p[3]]] == fs[p].(uid := uid, gid := uid)
  {
    var uid := MultiuserUid(UserId(name), AID_SYSTEM);
    assert Parent(CertsRemoved(name)) == MiscUser(name);
    var f1 := CopyIfPresent(fs, KEYCHAIN_ADDED, CertsAdded(name), uid, CopyAdded(name) in k.faults);
    assert !Within(CertsRemoved(name), CertsAdded(name)) by {
      assert CertsRemoved(name)[..4][3] == CertsRemoved(name)[3];
    }
    assert !Within(p, CertsAdded(name)) by {
      assert p[1] == p[..3][1] == KEYCHAIN_REMOVED[1];
      assert CertsAdded(name)[1] != KEYCHAIN_REMOVED[1];
    }
    assert FileIn(f1, p, KEYCHAIN_REMOVED);
  }

  /** Lines 614-619 never touch a user's config directory. */
  lemma ClearKeychainKeepsConfig(fs: Nodes, k: Kernel, id: nat)
    ensures Keeps(fs, ClearKeychain(fs, k), ConfigDir(id))
  {
    assert ConfigDir(id)[1] != KEYCHAIN_ADDED[1];
    assert !Within(ConfigDir(id), KEYCHAIN_ADDED) && !Within(ConfigDir(id), KEYCHAIN_REMOVED);
  }

  /**
   * Lines 556-624 when `/data/user` opens: a version-2 step that succeeds
   * has made a config directory for every listed entry and, unless the
   * deletes failed, removed both shared keychain directories.
   */
  lemma ConfigEveryEntry(s: Stage, k: Kernel)
    requires s.Going? && s.version == 2 && OpenUsersForConfig !in k.faults && IsDir(s.fs, USERS)
    ensures var r := ConfigForUsers(s, k);
            r.Going? ==> forall n :: n in k.listUsers(s.fs) && !IsDotEntry(n) ==>
              ConfigDir(UserId(n)) in r.fs && r.fs[ConfigDir(UserId(n))] == ConfigNode(UserId(n))
    ensures var r := ConfigForUsers(s, k);
            r.Going? && DeleteAdded !in k.faults ==> !Exists(r.fs, KEYCHAIN_ADDED)
    ensures var r := ConfigForUsers(s, k);
            r.Going? && DeleteRemoved !in k.faults ==> !Exists(r.fs, KEYCHAIN_REMOVED)
  {
    var names := k.listUsers(s.fs);
    UserConfigCreates(s.fs, names, k);
    var u := UserConfig(s.fs, names, k);
    if u.Going? {
      forall n | n in names && !IsDotEntry(n)
        ensures ConfigDir(UserId(n)) in ClearKeychain(u.fs, k)
        ensures ClearKeychain(u.fs, k)[ConfigDir(UserId(n))] == ConfigNode(UserId(n))
      {
        ClearKeychainKeepsConfig(u.fs, k, UserId(n));
      }
    }
  }

  /**
   * A kernel whose `readdir` of `/data/user` lists exactly the entries of
   * the directory (apart from "." and ".."), whatever the tree.
   */
  ghost predicate ListsChildren(k: Kernel)
  {
    forall fs: Nodes, n: Name :: !IsDotEntry(n) ==> (n in k.listUsers(fs) <==> USERS + [n] in fs)
  }

  /**
   * Lines 556-624 with a `readdir` that lists the directory: a version-2
   * step that succeeds has made a config directory for every entry under
   * `/data/user`.
   */
  lemma ConfigEveryUser(s: Stage, k: Kernel)
    requires s.Going? && s.version == 2 && OpenUsersForConfig !in k.faults && IsDir(s.fs, USERS)
    requires ListsChildren(k)
    ensures var r := ConfigForUsers(s, k);
            r.Going? ==> forall n :: USERS + [n] in s.fs && !IsDotEntry(n) ==>
              ConfigDir(UserId(n)) in r.fs && r.fs[ConfigDir(UserId(n))] == ConfigNode(UserId(n))
  {
    ConfigEveryEntry(s, k);
  }

  /**
   * Lines 476-509 with a `readdir` that lists the directory: when no
   * preparation fails and nothing but directories is in the way, the
   * version-0 loop gives every sub-directory of `/data/user` a media_rw
   * 0770 directory under `/data/media`.
   */
  lemma MediaEveryUser(s: Stage, k: Kernel)
    requires s.Going? && s.version == 0 && OpenUsersForMedia !in k.faults
    requires IsDir(s.fs, USERS) && IsDir(s.fs, MEDIA) && ListsChildren(k)
    requires forall n :: IsDir(s.fs, USERS + [n]) && !IsDotEntry(n) ==>
               PrepareUserMedia(n) !in k.faults && (MEDIA + [n] in s.fs ==> s.fs[MEDIA + [n]].kind.Dir?)
    ensures MediaForUsers(s, k).Going?
    ensures forall n :: IsDir(s.fs, USERS + [n]) && !IsDotEntry(n) ==>
              MEDIA + [n] in MediaForUsers(s, k).fs && MediaForUsers(s, k).fs[MEDIA + [n]] == MEDIA_NODE
  {
    UserMediaCreates(s.fs, k.listUsers(s.fs), s.fs, k);
  }

  /** The loop at lines 572-611 gives up with -10 when the config directory of any entry it reaches cannot be prepared. */
  lemma {:induction false} UserConfigFails(fs: Nodes, names: seq<Name>, k: Kernel, i: nat)
    requires i < |names| && !IsDotEntry(names[i]) && EnsureConfigUser(names[i]) in k.faults
    decreases i
    ensures UserConfig(fs, names, k).Stopped?
  {
    var n := names[0];
    if i > 0 {
      assert names[1..][i - 1] == names[i];
    }
    if i == 0 {
    } else if IsDotEntry(n) {
      UserConfigFails(fs, names[1..], k, i - 1);
    } else {
      match ConfigUser(fs, n, k)
      case None =>
      case Some(f) =>
        UserConfigFails(f, names[1..], k, i - 1);
    }
  }

  /** `k1` and `k2` agree on which config directories cannot be prepared. */
  ghost predicate SameConfigFaults(k1: Kernel, k2: Kernel)
  {
    forall n :: EnsureConfigUser(n) in k1.faults <==> EnsureConfigUser(n) in k2.faults
  }

  /** `fs1` and `fs2` agree on every path of fewer than four components. */
  ghost predicate SameShallow(fs1: Nodes, fs2: Nodes)
  {
    forall q :: |q| < 4 ==> Keeps(fs1, fs2, q)
  }

  /** One entry of the loop at lines 572-611 on trees that agree down to three levels. */
  lemma ConfigUserShallow(fs1: Nodes, fs2: Nodes, n: Name, k1: Kernel, k2: Kernel)
    requires SameConfigFaults(k1, k2) && SameShallow(fs1, fs2)
    ensures ConfigUser(fs1, n, k1).Some? <==> ConfigUser(fs2, n, k2).Some?
    ensures ConfigUser(fs1, n, k1).Some? ==> SameShallow(ConfigUser(fs1, n, k1).value, ConfigUser(fs2, n, k2).value)
  {
    var c := ConfigDir(UserId(n));
    assert |c| == 3 && |Parent(c)| == 2;
    var e1 := EnsureConfigUserDirs(fs1, UserId(n), EnsureConfigUser(n) in k1.faults);
    var e2 := EnsureConfigUserDirs(fs2, UserId(n), EnsureConfigUser(n) in k2.faults);
    assert e1.Some? <==> e2.Some?;
    if e1.Some? {
      assert SameShallow(e1.value, e2.value);
    }
  }

  /**
   * Lines 602-609: a failed keychain copy is only logged. Whether the loop
   * at lines 572-611 runs to its end does not depend on the copies at all,
   * nor on anything four or more levels deep.
   */
  lemma {:induction false} CopyFailuresOnlyLogged(fs1: Nodes, fs2: Nodes, names: seq<Name>, k1: Kernel, k2: Kernel)
    requires SameConfigFaults(k1, k2) && SameShallow(fs1, fs2)
    decreases |names|
    ensures UserConfig(fs1, names, k1).Going? <==> UserConfig(fs2, names, k2).Going?
  {
    if names != [] {
      var n := names[0];
      if IsDotEntry(n) {
        CopyFailuresOnlyLogged(fs1, fs2, names[1..], k1, k2);
      } else {
        ConfigUserShallow(fs1, fs2, n, k1, k2);
        if ConfigUser(fs1, n, k1).Some? {
          CopyFailuresOnlyLogged(ConfigUser(fs1, n, k1).value, ConfigUser(fs2, n, k2).value, names[1..], k1, k2);
        }
      }
    }
  }
}
