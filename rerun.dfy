/**
 * Running `initialize_directories` again (installd.c lines 366-642): what
 * each phase leaves alone, why a second boot after a successful one
 * changes nothing, and what a second boot after a failed version-0
 * upgrade does to the owner's media.
 */
module Rerun {
  import opened CString
  import opened FileSystem
  import opened Migration

  const MISC: Path := ["misc"]

  /**
   * What the run may rewrite once the users directory and the primary
   * link are in place: everything below `/data/media`, `/data/media.tmp`
   * and `/data/misc`, and the marker.
   */
  predicate Rewritten(q: Path)
  {
    Within(q, MEDIA) || Within(q, MEDIA_TMP) || Within(q, MISC) || q == MARKER
  }

  /** Everything inside a non-empty path is inside its top-level entry. */
  lemma InsideTop(p: Path)
    requires p != []
    ensures forall q :: Within(q, p) ==> Within(q, [p[0]])
  {
    forall q | Within(q, p)
      ensures Within(q, [p[0]])
    {
      assert q[0] == q[..|p|][0];
      assert q[..1] == [q[0]];
    }
  }

  /** `access(R_OK)` still succeeds when the node and the target of a link are kept. */
  lemma ReachableKept(f: Nodes, g: Nodes, p: Path)
    requires Reachable(f, p) && Keeps(f, g, p)
    requires f[p].kind.Link? ==> Keeps(f, g, f[p].kind.target)
    ensures Reachable(g, p)
  {
  }

  /** Lines 391-411 touch only `/data/user`. */
  lemma UsersDirFrame(s: Stage, k: Kernel)
    ensures forall q :: q != USERS ==> Keeps(s.fs, UsersDir(s, k).fs, q)
  {
  }

  /** Lines 412-418 touch only `/data/user/0`, and only by adding it. */
  lemma PrimaryLinkFrame(s: Stage, k: Kernel)
    ensures forall q :: q != PRIMARY ==> Keeps(s.fs, PrimaryLink(s, k).fs, q)
    ensures PrimaryLink(s, k).fs != s.fs ==> PRIMARY !in s.fs
  {
  }

  /** Lines 420-443 touch only `/data/media` and `/data/media.tmp`. */
  lemma MediaAsideFrame(s: Stage, k: Kernel)
    ensures forall q :: !Within(q, MEDIA) && !Within(q, MEDIA_TMP) ==> Keeps(s.fs, MediaAside(s, k).fs, q)
  {
  }

  /** Lines 445-474 touch only `/data/media` and `/data/media.tmp`. */
  lemma MediaRecreateFrame(s: Stage, k: Kernel)
    ensures forall q :: !Within(q, MEDIA) && !Within(q, MEDIA_TMP) ==> Keeps(s.fs, MediaRecreate(s, k).fs, q)
  {
    InsideTop(OWNER_MEDIA);
  }

  /** Every directory the loop at lines 479-502 may prepare lies inside `/data/media`. */
  lemma MediaTargetsInside(names: seq<Name>, top: Nodes)
    ensures forall q :: q in MediaTargets(names, top) ==> Within(q, MEDIA)
  {
    forall q | q in MediaTargets(names, top)
      ensures Within(q, MEDIA)
    {
      var n :| n in names && IsDir(top, USERS + [n]) && !IsDotEntry(n) && q == MEDIA + [n];
      assert q[..1] == MEDIA;
    }
  }

  /** Lines 476-509 touch only `/data/media`. */
  lemma MediaForUsersFrame(s: Stage, k: Kernel)
    ensures forall q :: !Within(q, MEDIA) ==> Keeps(s.fs, MediaForUsers(s, k).fs, q)
  {
    if s.Going? && s.version == 0 && OpenUsersForMedia !in k.faults && IsDir(s.fs, USERS) {
      MediaTargetsInside(k.listUsers(s.fs), s.fs);
    }
  }

  /** Lines 420-509 touch only `/data/media` and `/data/media.tmp`. */
  lemma MediaUpgradeFrame(s: Stage, k: Kernel)
    ensures forall q :: !Within(q, MEDIA) && !Within(q, MEDIA_TMP) ==> Keeps(s.fs, MediaUpgrade(s, k).fs, q)
  {
    var a := MediaAside(s, k);
    var b := MediaRecreate(a, k);
    MediaAsideFrame(s, k);
    MediaRecreateFrame(a, k);
    MediaForUsersFrame(b, k);
    assert MediaUpgrade(s, k) == MediaForUsers(b, k);
  }

  /** Lines 511-534 touch only `/data/media`. */
  lemma ObbMoveFrame(s: Stage, k: Kernel)
    ensures forall q :: !Within(q, MEDIA) ==> Keeps(s.fs, ObbMove(s, k).fs, q)
  {
    InsideTop(OWNER_OBB);
    InsideTop(MEDIA_OBB);
  }

  /** Lines 536-554 touch only user 0's media and config directories and the shared OBB directory. */
  lemma UserZeroFrame(s: Stage, k: Kernel)
    ensures forall q :: !Within(q, MEDIA) && !Within(q, MISC) ==> Keeps(s.fs, UserZero(s, k).fs, q)
  {
    assert MediaUserDir(0)[..1] == MEDIA && MEDIA_OBB[..1] == MEDIA && ConfigDir(0)[..1] == MISC;
  }

  /** The keychain copies of one user lie inside `/data/misc`. */
  lemma CertsInsideMisc(n: Name)
    ensures forall q :: Within(q, CertsAdded(n)) ==> Within(q, MISC)
    ensures forall q :: Within(q, CertsRemoved(n)) ==> Within(q, MISC)
  {
    InsideTop(CertsAdded(n));
    InsideTop(CertsRemoved(n));
  }

  /** Lines 589-610 touch only `/data/misc`. */
  lemma CopyCertsFrame(fs: Nodes, n: Name, k: Kernel)
    ensures forall q :: !Within(q, MISC) ==> Keeps(fs, CopyCerts(fs, n, k), q)
  {
    CertsInsideMisc(n);
  }

  /** One entry of the loop at lines 572-611 touches only `/data/misc`. */
  lemma ConfigUserFrame(fs: Nodes, n: Name, k: Kernel)
    requires ConfigUser(fs, n, k).Some?
    ensures forall q :: !Within(q, MISC) ==> Keeps(fs, ConfigUser(fs, n, k).value, q)
  {
    var e := EnsureConfigUserDirs(fs, UserId(n), EnsureConfigUser(n) in k.faults).value;
    assert Within(ConfigDir(UserId(n)), MISC);
    assert forall q :: !Within(q, MISC) ==> Keeps(fs, e, q);
    CopyCertsFrame(e, n, k);
  }

  /** The loop at lines 572-611 touches only `/data/misc`. */
  lemma {:induction false} UserConfigFrame(fs: Nodes, names: seq<Name>, k: Kernel)
    decreases |names|
    ensures forall q :: !Within(q, MISC) ==> Keeps(fs, UserConfig(fs, names, k).fs, q)
  {
    if names != [] {
      var n := names[0];
      if IsDotEntry(n) {
        UserConfigFrame(fs, names[1..], k);
      } else if ConfigUser(fs, n, k).Some? {
        ConfigUserFrame(fs, n, k);
        UserConfigFrame(ConfigUser(fs, n, k).value, names[1..], k);
      }
    }
  }

  /** Lines 556-624 touch only `/data/misc`. */
  lemma ConfigForUsersFrame(s: Stage, k: Kernel)
    ensures forall q :: !Within(q, MISC) ==> Keeps(s.fs, ConfigForUsers(s, k).fs, q)
  {
    if s.Going? && s.version == 2 && OpenUsersForConfig !in k.faults && IsDir(s.fs, USERS) {
      UserConfigFrame(s.fs, k.listUsers(s.fs), k);
      InsideTop(KEYCHAIN_ADDED);
      InsideTop(KEYCHAIN_REMOVED);
    }
  }

  /** User 0's system and everybody uids are the app ids themselves. */
  lemma ZeroUids()
    ensures MultiuserUid(0, AID_SYSTEM) == AID_SYSTEM && MultiuserUid(0, AID_EVERYBODY) == AID_EVERYBODY
  {
  }

  /** The version-2 step keeps user 0's config directory as the every-run step left it. */
  lemma ConfigForUsersKeepsZero(s: Stage, k: Kernel)
    requires ConfigDir(0) in s.fs && s.fs[ConfigDir(0)] == CONFIG_NODE
    ensures var r := ConfigForUsers(s, k).fs;
            ConfigDir(0) in r && r[ConfigDir(0)] == CONFIG_NODE
  {
    if s.Going? && s.version == 2 && OpenUsersForConfig !in k.faults && IsDir(s.fs, USERS) {
      ZeroUids();
      UserConfigKeepsNode(s.fs, k.listUsers(s.fs), k, 0);
      assert ConfigDir(0)[1] != KEYCHAIN_ADDED[1];
    }
  }

  /** A link at `p` (if any) points outside what the run rewrites. */
  predicate LinkOutside(fs: Nodes, p: Path)
  {
    p in fs && fs[p].kind.Link? ==> !Rewritten(fs[p].kind.target)
  }

  /** The stages of one run, in the order of lines 366-642. */
  datatype Trace = Trace(prior: int, users: Stage, linked: Stage, upgraded: Stage, obb: Stage,
                         zero: Stage, config: Stage, done: Stage)

  function Stages(fs: Nodes, k: Kernel): (t: Trace)
    requires Alloc !in k.faults
    ensures Migrate(fs, k) == Run(if t.done.Going? then 0 else t.done.code, t.done.fs)
  {
    var prior := StoredVersion(fs, k);
    var s1 := UsersDir(Going(fs, prior), k);
    var s2 := PrimaryLink(s1, k);
    var s3 := MediaUpgrade(s2, k);
    var s4 := ObbMove(s3, k);
    var s5 := UserZero(s4, k);
    var s6 := ConfigForUsers(s5, k);
    Trace(prior, s1, s2, s3, s4, s5, s6, Persist(s6, prior, k))
  }

  /** The fixed paths the run reaches through, and user 0's directories, against what it rewrites. */
  lemma FixedPathsApart()
    ensures !Rewritten(USERS) && !Rewritten(PRIMARY) && !Rewritten(LEGACY)
    ensures !Within(MediaUserDir(0), MISC) && MediaUserDir(0) != MARKER
    ensures !Within(MEDIA_OBB, MISC) && MEDIA_OBB != MARKER
    ensures ConfigDir(0) != MARKER && PRIMARY != LEGACY
  {
    assert USERS[0][0] != MEDIA[0][0] && USERS[0][0] != MISC[0][0] && USERS[0][0] != MEDIA_TMP[0][0];
    assert PRIMARY[..1] == USERS;
    assert LEGACY[0][0] != MEDIA[0][0] && LEGACY[0][0] != MISC[0][0] && LEGACY[0][0] != MEDIA_TMP[0][0];
    assert MediaUserDir(0)[..1] == MEDIA && MEDIA_OBB[..1] == MEDIA;
  }

  /**
   * After lines 391-418 succeed, `/data/user` and `/data/user/0` are
   * reachable and any link there points outside what the rest rewrites.
   */
  lemma LinkedReachable(fs: Nodes, k: Kernel)
    requires Alloc !in k.faults && LEGACY in fs
    requires LinkOutside(fs, USERS) && LinkOutside(fs, PRIMARY)
    requires Stages(fs, k).linked.Going?
    ensures var s2 := Stages(fs, k).linked.fs;
            Reachable(s2, USERS) && Reachable(s2, PRIMARY) && LinkOutside(s2, USERS) && LinkOutside(s2, PRIMARY)
  {
    var t := Stages(fs, k);
    FixedPathsApart();
    UsersReady(Going(fs, t.prior), k);
    PrimaryReady(t.users, k);
  }

  /** Lines 391-411 leave `/data/user` reachable and keep `/data/data` and `/data/user/0`. */
  lemma UsersReady(s: Stage, k: Kernel)
    requires s.Going? && LEGACY in s.fs && LinkOutside(s.fs, USERS) && LinkOutside(s.fs, PRIMARY)
    requires UsersDir(s, k).Going?
    ensures var f := UsersDir(s, k).fs;
            Reachable(f, USERS) && LinkOutside(f, USERS) && LEGACY in f && LinkOutside(f, PRIMARY)
  {
    UsersDirFrame(s, k);
  }

  /** Lines 412-418 leave `/data/user/0` reachable and keep `/data/user` reachable. */
  lemma PrimaryReady(s: Stage, k: Kernel)
    requires s.Going? && LEGACY in s.fs && !Rewritten(LEGACY) && PRIMARY != LEGACY
    requires Reachable(s.fs, USERS) && LinkOutside(s.fs, USERS) && LinkOutside(s.fs, PRIMARY)
    requires PrimaryLink(s, k).Going?
    ensures var f := PrimaryLink(s, k).fs;
            Reachable(f, USERS) && Reachable(f, PRIMARY) && LinkOutside(f, USERS) && LinkOutside(f, PRIMARY)
  {
    PrimaryLinkFrame(s, k);
  }

  /** Lines 626-632 touch only the marker. */
  lemma PersistFrame(fs: Nodes, k: Kernel)
    requires Alloc !in k.faults
    ensures var t := Stages(fs, k);
            forall q :: q != MARKER ==> Keeps(t.config.fs, t.done.fs, q)
  {
  }

  /** Lines 556-632 touch only `/data/misc` and the marker. */
  lemma ZeroToDoneFrame(fs: Nodes, k: Kernel)
    requires Alloc !in k.faults
    ensures var t := Stages(fs, k);
            forall q :: !Within(q, MISC) && q != MARKER ==> Keeps(t.zero.fs, t.done.fs, q)
  {
    var t := Stages(fs, k);
    ConfigForUsersFrame(t.zero, k);
    PersistFrame(fs, k);
  }

  /** What lines 420-632 leave of a tree in which the users directory and the primary link are in place. */
  lemma LaterStepsFrame(fs: Nodes, k: Kernel)
    requires Alloc !in k.faults
    ensures var t := Stages(fs, k);
            forall q :: !Rewritten(q) ==> Keeps(t.linked.fs, t.done.fs, q)
  {
    var t := Stages(fs, k);
    MediaUpgradeFrame(t.linked, k);
    ObbMoveFrame(t.upgraded, k);
    UserZeroFrame(t.obb, k);
    ZeroToDoneFrame(fs, k);
  }

  /** The preconditions of the re-run lemma, spelled once. */
  predicate QuietSuccess(fs: Nodes, k: Kernel)
  {
    k.faults == {} && LEGACY in fs && LinkOutside(fs, USERS) && LinkOutside(fs, PRIMARY) && Migrate(fs, k).res == 0
  }

  /** A successful run leaves `/data/user` and `/data/user/0` reachable. */
  lemma DoneReachable(fs: Nodes, k: Kernel)
    requires QuietSuccess(fs, k)
    ensures Reachable(Migrate(fs, k).fs, USERS) && Reachable(Migrate(fs, k).fs, PRIMARY)
  {
    var t := Stages(fs, k);
    LinkedReachable(fs, k);
    LaterStepsFrame(fs, k);
    FixedPathsApart();
    ReachableKept(t.linked.fs, t.done.fs, USERS);
    ReachableKept(t.linked.fs, t.done.fs, PRIMARY);
  }

  /** A successful run leaves user 0's media directory and the shared OBB directory as lines 536-547 prepare them. */
  lemma DoneMediaNodes(fs: Nodes, k: Kernel)
    requires QuietSuccess(fs, k)
    ensures var d := Migrate(fs, k).fs;
            MediaUserDir(0) in d && d[MediaUserDir(0)] == MEDIA_NODE && MEDIA_OBB in d && d[MEDIA_OBB] == MEDIA_NODE
  {
    ZeroToDoneFrame(fs, k);
    FixedPathsApart();
  }

  /** A successful run leaves user 0's config directory as line 550 prepares it. */
  lemma DoneConfigNode(fs: Nodes, k: Kernel)
    requires QuietSuccess(fs, k)
    ensures var d := Migrate(fs, k).fs;
            ConfigDir(0) in d && d[ConfigDir(0)] == CONFIG_NODE
  {
    ConfigNodeToDone(fs, k);
  }

  /** Once the every-run step has succeeded, user 0's config directory stays as it left it. */
  lemma ConfigNodeToDone(fs: Nodes, k: Kernel)
    requires Alloc !in k.faults
    ensures var t := Stages(fs, k);
            t.zero.Going? ==> ConfigDir(0) in t.done.fs && t.done.fs[ConfigDir(0)] == CONFIG_NODE
  {
    var t := Stages(fs, k);
    if t.zero.Going? {
      PersistFrame(fs, k);
      FixedPathsApart();
      ConfigForUsersKeepsZero(t.zero, k);
    }
  }

  /** A successful run leaves a marker that none of the versioned steps acts on. */
  lemma DoneVersion(fs: Nodes, k: Kernel)
    requires QuietSuccess(fs, k)
    ensures StoredVersion(Migrate(fs, k).fs, k) !in {0, 1, 2}
  {
    VersionFlow(fs, k);
  }

  /**
   * Lines 366-642 on a tree where the users directory and the primary link
   * are reachable, user 0's directories are in place and the marker names
   * no versioned step: nothing happens and the run returns 0.
   */
  lemma SettledRun(fs: Nodes, k: Kernel)
    requires k.faults == {} && Reachable(fs, USERS) && Reachable(fs, PRIMARY)
    requires MediaUserDir(0) in fs && fs[MediaUserDir(0)] == MEDIA_NODE && MEDIA_OBB in fs && fs[MEDIA_OBB] == MEDIA_NODE
    requires ConfigDir(0) in fs && fs[ConfigDir(0)] == CONFIG_NODE
    requires StoredVersion(fs, k) !in {0, 1, 2}
    ensures Migrate(fs, k) == Run(0, fs)
  {
    var v := StoredVersion(fs, k);
    UserZeroSettled(fs, v, k);
    assert Stages(fs, k).zero == Going(fs, v);
  }

  /**
   * Lines 366-642, run twice: when nothing fails, `/data/data` is there
   * and no link at `/data/user` or `/data/user/0` points into what the run
   * rewrites, a second run after a successful one returns 0 and changes
   * nothing.
   */
  lemma RerunSettles(fs: Nodes, k: Kernel)
    requires k.faults == {} && LEGACY in fs
    requires LinkOutside(fs, USERS) && LinkOutside(fs, PRIMARY)
    requires Migrate(fs, k).res == 0
    ensures Migrate(Migrate(fs, k).fs, k) == Run(0, Migrate(fs, k).fs)
  {
    DoneReachable(fs, k);
    DoneMediaNodes(fs, k);
    DoneConfigNode(fs, k);
    DoneVersion(fs, k);
    SettledRun(Migrate(fs, k).fs, k);
  }

  /** Lines 420-443 on an existing `/data/media` with no `media.tmp`: the whole directory moves aside. */
  lemma AsideMoves(fs: Nodes, k: Kernel)
    requires IsDir(fs, []) && IsDir(fs, MEDIA)
    requires forall q :: q in fs ==> !Within(q, MEDIA_TMP)
    requires PrepareMedia !in k.faults && MoveMediaAside !in k.faults
    ensures MediaAside(Going(fs, 0), k) == Going(Move(fs[MEDIA := MEDIA_NODE], MEDIA, MEDIA_TMP), 0)
  {
    var f1 := fs[MEDIA := MEDIA_NODE];
    assert !Exists(f1, MEDIA_TMP) by { assert Within(MEDIA_TMP, MEDIA_TMP); }
    RenameMoves(f1, MEDIA, MEDIA_TMP);
  }

  /** Lines 445-474 with `media.tmp` there and nothing left in `/data/media`: `media.tmp` becomes `/data/media/0`. */
  lemma RecreateMoves(fs: Nodes, k: Kernel)
    requires IsDir(fs, []) && MEDIA_TMP in fs
    requires forall q :: q in fs ==> !Within(q, MEDIA)
    requires RecreateMedia !in k.faults && Restorecon !in k.faults && MoveOwnerMedia !in k.faults
    ensures MediaRecreate(Going(fs, 0), k) == Going(Move(fs[MEDIA := MEDIA_NODE], MEDIA_TMP, OWNER_MEDIA), 0)
  {
    var f1 := fs[MEDIA := MEDIA_NODE];
    assert MEDIA !in fs by { assert Within(MEDIA, MEDIA); }
    assert OWNER_MEDIA !in f1 by { assert Within(OWNER_MEDIA, MEDIA); }
    assert Parent(OWNER_MEDIA) == MEDIA;
    assert !Within(OWNER_MEDIA, MEDIA_TMP) by { assert OWNER_MEDIA[0] != MEDIA_TMP[0]; }
    RenameMoves(f1, MEDIA_TMP, OWNER_MEDIA);
  }

  /** After the move aside, the tree has `media.tmp` and nothing under `/data/media`. */
  lemma AsideLeaves(fs: Nodes)
    requires IsDir(fs, []) && IsDir(fs, MEDIA)
    ensures var f2 := Move(fs[MEDIA := MEDIA_NODE], MEDIA, MEDIA_TMP);
            IsDir(f2, []) && MEDIA_TMP in f2 && forall q :: q in f2 ==> !Within(q, MEDIA)
  {
    var f1 := fs[MEDIA := MEDIA_NODE];
    var f2 := Move(f1, MEDIA, MEDIA_TMP);
    assert MEDIA_TMP == MEDIA_TMP + MEDIA[|MEDIA|..];
    assert Within(MEDIA, MEDIA);
    assert MEDIA[0] != MEDIA_TMP[0];
    forall q | q in f2
      ensures !Within(q, MEDIA)
    {
      if q != [] {
        assert q[..1][0] == q[0];
      }
    }
  }

  /** One path of the owner's media, followed through both moves of lines 438-474. */
  lemma NestedPath(fs: Nodes, q: Path)
    requires q in fs && Within(q, OWNER_MEDIA)
    ensures var f2 := Move(fs[MEDIA := MEDIA_NODE], MEDIA, MEDIA_TMP);
            var f4 := Move(f2[MEDIA := MEDIA_NODE], MEDIA_TMP, OWNER_MEDIA);
            OWNER_MEDIA + q[1..] in f4 && f4[OWNER_MEDIA + q[1..]] == fs[q]
  {
    var f1 := fs[MEDIA := MEDIA_NODE];
    var f2 := Move(f1, MEDIA, MEDIA_TMP);
    var f3 := f2[MEDIA := MEDIA_NODE];
    InsideTop(OWNER_MEDIA);
    assert q != MEDIA;
    var t := MEDIA_TMP + q[1..];
    assert t in f2 && f2[t] == fs[q];
    assert t != MEDIA by { assert t[0] != MEDIA[0]; }
    assert t[..1] == MEDIA_TMP && t[1..] == q[1..];
    assert t in f3 && f3[t] == fs[q];
  }

  /**
   * Lines 420-474 as written, on a tree that a failed earlier boot left
   * behind (the owner's files already moved to `/data/media/0`, the marker
   * still unwritten, see `VersionFlow`): the version-0 step runs again and
   * moves all of `/data/media`, `0` included, into `/data/media/0`, so
   * every file of the owner ends up one level deeper.
   */
  lemma RetryNestsOwnerMedia(fs: Nodes, k: Kernel)
    requires IsDir(fs, []) && IsDir(fs, MEDIA)
    requires forall q :: q in fs ==> !Within(q, MEDIA_TMP)
    requires PrepareMedia !in k.faults && MoveMediaAside !in k.faults
    requires RecreateMedia !in k.faults && Restorecon !in k.faults && MoveOwnerMedia !in k.faults
    ensures var r := MediaRecreate(MediaAside(Going(fs, 0), k), k);
            r.Going? &&
            forall q :: q in fs && Within(q, OWNER_MEDIA) ==> OWNER_MEDIA + q[1..] in r.fs && r.fs[OWNER_MEDIA + q[1..]] == fs[q]
  {
    var f2 := Move(fs[MEDIA := MEDIA_NODE], MEDIA, MEDIA_TMP);
    AsideMoves(fs, k);
    AsideLeaves(fs);
    RecreateMoves(f2, k);
    forall q | q in fs && Within(q, OWNER_MEDIA)
      ensures var f4 := Move(f2[MEDIA := MEDIA_NODE], MEDIA_TMP, OWNER_MEDIA);
              OWNER_MEDIA + q[1..] in f4 && f4[OWNER_MEDIA + q[1..]] == fs[q]
    {
      NestedPath(fs, q);
    }
  }
}
