/**
 * `initialize_globals` (installd.c lines 305-364): the directory paths the
 * daemon derives from its environment at start-up, and the table of the
 * four system application directories with their lengths.
 *
 * The helpers it calls (`get_path_from_env`, `copy_and_append`,
 * `build_string2`) and the sub-directory names live in files that are not
 * part of this model; they are parameters here, except `build_string2`,
 * whose name and use say it concatenates its two strings.
 */
module Globals {
  import opened CString

  /** A `dir_rec_t`: a path and its length. */
  datatype DirRec = DirRec(path: Str, len: nat)

  /**
   * What the start-up code depends on: `fromEnv(var)` is what
   * `get_path_from_env` stores for the variable (None when it fails),
   * `append(dir, sub)` what `copy_and_append` stores (None when it fails),
   * `callocFails` whether the table allocation fails, and the
   * sub-directory names of installd.h.
   */
  datatype Startup = Startup(
    fromEnv: Str -> Option<Str>,
    append: (Str, Str) -> Option<Str>,
    callocFails: bool,
    appSubdir: Str, privateAppSubdir: Str, appLibSubdir: Str,
    mediaSubdir: Str, privAppSubdir: Str)

  /** The globals `initialize_globals` fills. */
  datatype Paths = Paths(
    dataDir: Str, appDir: Str, appPrivateDir: Str, appLibDir: Str,
    asecDir: Str, mediaDir: Str, systemDirs: seq<DirRec>)

  /** The environment variables read at start-up. */
  const ANDROID_DATA: Str := "ANDROID_DATA"
  const ASEC_MOUNTPOINT: Str := "ASEC_MOUNTPOINT"
  const ANDROID_ROOT: Str := "ANDROID_ROOT"

  const VENDOR_APP: Str := "/vendor/app/"
  const OEM_APP: Str := "/oem/app/"

  /** `strlen`: the bytes before the first NUL. */
  function StrLen(s: Str): (n: nat)
    ensures n <= |s| && NoNul(s[..n])
    ensures n < |s| ==> s[n] == NUL
  {
    |CStr(s, 0)|
  }

  /** Without an embedded NUL, `strlen` is the whole length. */
  lemma StrLenWhole(s: Str)
    requires NoNul(s)
    ensures StrLen(s) == |s|
  {
  }

  lemma LiteralsNoNul()
    ensures NoNul(VENDOR_APP) && NoNul(OEM_APP)
  {
  }

  lemma NoNulConcat(a: Str, b: Str)
    requires NoNul(a) && NoNul(b)
    ensures NoNul(a + b)
  {
    assert forall i :: 0 <= i < |a + b| ==> (a + b)[i] == if i < |a| then a[i] else b[i - |a|];
  }

  /** A `dir_rec_t` whose length is set with `strlen` of its path. */
  function Rec(path: Str): DirRec
  {
    DirRec(path, StrLen(path))
  }

  /** Lines 306-334: the data, app, private app, library, ASEC and media directories, in that order. */
  function DataDirs(e: Startup): (r: Option<seq<Str>>)
    ensures r.Some? ==> |r.value| == 6
    ensures r.Some? <==>
              e.fromEnv(ANDROID_DATA).Some? && e.fromEnv(ASEC_MOUNTPOINT).Some? &&
              (var data := e.fromEnv(ANDROID_DATA).value;
               e.append(data, e.appSubdir).Some? && e.append(data, e.privateAppSubdir).Some? &&
               e.append(data, e.appLibSubdir).Some? && e.append(data, e.mediaSubdir).Some?)
    ensures r.Some? ==>
              var data := e.fromEnv(ANDROID_DATA).value;
              r.value == [data, e.append(data, e.appSubdir).value, e.append(data, e.privateAppSubdir).value,
                          e.append(data, e.appLibSubdir).value, e.fromEnv(ASEC_MOUNTPOINT).value,
                          e.append(data, e.mediaSubdir).value]
  {
    match e.fromEnv(ANDROID_DATA)
    case None => None
    case Some(data) =>
      match e.append(data, e.appSubdir)
      case None => None
      case Some(app) =>
        match e.append(data, e.privateAppSubdir)
        case None => None
        case Some(appPrivate) =>
          match e.append(data, e.appLibSubdir)
          case None => None
          case Some(appLib) =>
            match e.fromEnv(ASEC_MOUNTPOINT)
            case None => None
            case Some(asec) =>
              match e.append(data, e.mediaSubdir)
              case None => None
              case Some(media) => Some([data, app, appPrivate, appLib, asec, media])
  }

  /** Lines 337-361: the four-entry table of system application directories. */
  function SystemTable(e: Startup): (r: Option<seq<DirRec>>)
    ensures r.Some? <==> !e.callocFails && e.fromEnv(ANDROID_ROOT).Some?
    ensures r.Some? ==> |r.value| == 4
    ensures r.Some? ==> forall d :: d in r.value ==> d.len == StrLen(d.path)
  {
    if e.callocFails then None
    else match e.fromEnv(ANDROID_ROOT)
      case None => None
      case Some(root) => Some([Rec(root + e.appSubdir), Rec(root + e.privAppSubdir), Rec(VENDOR_APP), Rec(OEM_APP)])
  }

  /** Lines 305-364: -1 (None) as soon as any step fails, otherwise the globals. */
  function InitializeGlobals(e: Startup): (r: Option<Paths>)
    ensures r.Some? <==> DataDirs(e).Some? && SystemTable(e).Some?
    ensures r.Some? ==> |r.value.systemDirs| == 4 && r.value.dataDir == e.fromEnv(ANDROID_DATA).value
    ensures r.Some? ==>
              var data := e.fromEnv(ANDROID_DATA).value;
              r.value.appDir == e.append(data, e.appSubdir).value &&
              r.value.appPrivateDir == e.append(data, e.privateAppSubdir).value &&
              r.value.appLibDir == e.append(data, e.appLibSubdir).value &&
              r.value.asecDir == e.fromEnv(ASEC_MOUNTPOINT).value &&
              r.value.mediaDir == e.append(data, e.mediaSubdir).value &&
              r.value.systemDirs == SystemTable(e).value
  {
    match DataDirs(e)
    case None => None
    case Some(d) =>
      match SystemTable(e)
      case None => None
      case Some(dirs) => Some(Paths(d[0], d[1], d[2], d[3], d[4], d[5], dirs))
  }

  /**
   * Lines 337-361: the system table lists, in order, the root's app and
   * priv-app directories, /vendor/app/ and /oem/app/, and each entry's
   * `len` is its path's full length when the root and the sub-directory
   * names hold no NUL.
   */
  lemma SystemDirs(e: Startup)
    requires SystemTable(e).Some?
    requires NoNul(e.fromEnv(ANDROID_ROOT).value) && NoNul(e.appSubdir) && NoNul(e.privAppSubdir)
    ensures var root := e.fromEnv(ANDROID_ROOT).value;
            var dirs := SystemTable(e).value;
            [dirs[0].path, dirs[1].path, dirs[2].path, dirs[3].path] ==
              [root + e.appSubdir, root + e.privAppSubdir, VENDOR_APP, OEM_APP]
    ensures forall d :: d in SystemTable(e).value ==> d.len == |d.path|
    ensures SystemTable(e).value[2].len == 12 && SystemTable(e).value[3].len == 9
  {
    var root := e.fromEnv(ANDROID_ROOT).value;
    NoNulConcat(root, e.appSubdir);
    NoNulConcat(root, e.privAppSubdir);
    StrLenWhole(root + e.appSubdir);
    StrLenWhole(root + e.privAppSubdir);
    LiteralsNoNul();
    StrLenWhole(VENDOR_APP);
    StrLenWhole(OEM_APP);
  }
}
