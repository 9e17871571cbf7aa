/**
 * The command table (`cmds[]`) and the `do_*` wrappers of installd.c:
 * which wire command runs which collaborator, with how many arguments,
 * and how each argument is passed (as text or through `atoi`).
 *
 * The collaborators themselves (install, dexopt, get_size, ...) live in
 * other files; here they are an `External` record of functions, so the
 * model says exactly what each wrapper passes and nothing about what the
 * collaborator does with it.
 */
module Commands {
  import opened CString

  /** Size of the reply buffer a handler may fill. */
  const REPLY_MAX: nat := 256

  /** What `get_size` hands back: its result and four sizes. */
  datatype SizeReport = SizeReport(res: Int32, codeSize: Int64, dataSize: Int64,
                                   cacheSize: Int64, asecSize: Int64)

  datatype External = External(
    install: (Str, int, int, Str) -> Int32,
    dexopt: (Str, int, int, Str, Str, int, int) -> Int32,
    markBootComplete: Str -> Int32,
    moveDex: (Str, Str, Str) -> Int32,
    rmDex: (Str, Str) -> Int32,
    uninstall: (Str, int) -> Int32,
    renamePkg: (Str, Str) -> Int32,
    fixUid: (Str, int, int) -> Int32,
    freeCache: int -> Int32,
    deleteCache: (Str, int) -> Int32,
    deleteCodeCache: (Str, int) -> Int32,
    getSize: (Str, int, Str, Str, Str, Str, Str) -> SizeReport,
    deleteUserData: (Str, int) -> Int32,
    makeUserData: (Str, int, int, Str) -> Int32,
    makeUserConfig: int -> Int32,
    deleteUser: int -> Int32,
    moveFiles: () -> Int32,
    linkLib: (Str, Str, int) -> Int32,
    idmap: (Str, Str, int) -> Int32,
    restoreconData: (Str, Str, int) -> Int32)

  datatype Handler =
    | Ping | Install | Dexopt | MarkBootComplete | MoveDex | RmDex | Remove
    | Rename | FixUid | FreeCache | RmCache | RmCodeCache | GetSize
    | RmUserData | MoveFiles | LinkLib | MkUserData | MkUserConfig | RmUser
    | Idmap | RestoreconData | Patchoat

  datatype CmdInfo = CmdInfo(name: Str, numargs: nat, func: Handler)

  /** The dispatch table, in its declared order. */
  const Cmds: seq<CmdInfo> := [
    CmdInfo("ping", 0, Ping),
    CmdInfo("install", 4, Install),
    CmdInfo("dexopt", 6, Dexopt),
    CmdInfo("markbootcomplete", 1, MarkBootComplete),
    CmdInfo("movedex", 3, MoveDex),
    CmdInfo("rmdex", 2, RmDex),
    CmdInfo("remove", 2, Remove),
    CmdInfo("rename", 2, Rename),
    CmdInfo("fixuid", 3, FixUid),
    CmdInfo("freecache", 1, FreeCache),
    CmdInfo("rmcache", 2, RmCache),
    CmdInfo("rmcodecache", 2, RmCodeCache),
    CmdInfo("getsize", 7, GetSize),
    CmdInfo("rmuserdata", 2, RmUserData),
    CmdInfo("movefiles", 0, MoveFiles),
    CmdInfo("linklib", 3, LinkLib),
    CmdInfo("mkuserdata", 4, MkUserData),
    CmdInfo("mkuserconfig", 1, MkUserConfig),
    CmdInfo("rmuser", 1, RmUser),
    CmdInfo("idmap", 3, Idmap),
    CmdInfo("restorecondata", 3, RestoreconData),
    CmdInfo("patchoat", 5, Patchoat)
  ]

  /** The highest argument index a wrapper reads, plus one. */
  function ArgsRead(h: Handler): nat
  {
    match h
    case Ping => 0
    case Install => 4
    case Dexopt => 6
    case MarkBootComplete => 1
    case MoveDex => 3
    case RmDex => 2
    case Remove => 2
    case Rename => 2
    case FixUid => 3
    case FreeCache => 1
    case RmCache => 2
    case RmCodeCache => 2
    case GetSize => 7
    case RmUserData => 2
    case MoveFiles => 0
    case LinkLib => 3
    case MkUserData => 4
    case MkUserConfig => 1
    case RmUser => 1
    case Idmap => 3
    case RestoreconData => 3
    case Patchoat => 5
  }

  /** `get_size`'s reply: four `%PRId64` values separated by single spaces. */
  function SizesText(rep: SizeReport): Str
  {
    Dec(rep.codeSize) + [' '] + Dec(rep.dataSize) + [' '] + Dec(rep.cacheSize) + [' '] + Dec(rep.asecSize)
  }

  /**
   * The `do_*` wrappers: the collaborator's result and the handler's reply
   * text. Only `do_get_size` writes a reply; it is `snprintf`'d into
   * REPLY_MAX bytes.
   */
  function Invoke(h: Handler, arg: seq<Str>, ext: External): (out: (Int32, Str))
    requires |arg| >= ArgsRead(h)
    ensures h != GetSize ==> out.1 == []
    ensures |out.1| < REPLY_MAX && NoNul(out.1)
  {
    match h
    case Ping => (0, [])
    case Install => (ext.install(arg[0], Atoi(arg[1]), Atoi(arg[2]), arg[3]), [])
    case Dexopt => (ext.dexopt(arg[0], Atoi(arg[1]), Atoi(arg[2]), arg[3], arg[4], Atoi(arg[5]), 0), [])
    case MarkBootComplete => (ext.markBootComplete(arg[0]), [])
    case MoveDex => (ext.moveDex(arg[0], arg[1], arg[2]), [])
    case RmDex => (ext.rmDex(arg[0], arg[1]), [])
    case Remove => (ext.uninstall(arg[0], Atoi(arg[1])), [])
    case Rename => (ext.renamePkg(arg[0], arg[1]), [])
    case FixUid => (ext.fixUid(arg[0], Atoi(arg[1]), Atoi(arg[2])), [])
    case FreeCache => (ext.freeCache(Atoi(arg[0])), [])
    case RmCache => (ext.deleteCache(arg[0], Atoi(arg[1])), [])
    case RmCodeCache => (ext.deleteCodeCache(arg[0], Atoi(arg[1])), [])
    case GetSize =>
      var rep := ext.getSize(arg[0], Atoi(arg[1]), arg[2], arg[3], arg[4], arg[5], arg[6]);
      SizesNoNul(rep);
      (rep.res, Snprintf(SizesText(rep), REPLY_MAX))
    case RmUserData => (ext.deleteUserData(arg[0], Atoi(arg[1])), [])
    case MoveFiles => (ext.moveFiles(), [])
    case LinkLib => (ext.linkLib(arg[0], arg[1], Atoi(arg[2])), [])
    case MkUserData => (ext.makeUserData(arg[0], Atoi(arg[1]), Atoi(arg[2]), arg[3]), [])
    case MkUserConfig => (ext.makeUserConfig(Atoi(arg[0])), [])
    case RmUser => (ext.deleteUser(Atoi(arg[0])), [])
    case Idmap => (ext.idmap(arg[0], arg[1], Atoi(arg[2])), [])
    case RestoreconData => (ext.restoreconData(arg[0], arg[1], Atoi(arg[2])), [])
    case Patchoat => (ext.dexopt(arg[0], Atoi(arg[1]), Atoi(arg[2]), arg[3], arg[4], 0, 1), [])
  }

  lemma SizesNoNul(rep: SizeReport)
    ensures NoNul(SizesText(rep))
  {
  }

  /**
   * The size reply is at most 4 * 20 + 3 = 83 characters, so the
   * `snprintf` into REPLY_MAX bytes never truncates it.
   */
  lemma SizesFit(rep: SizeReport)
    ensures |SizesText(rep)| <= 83 < REPLY_MAX
    ensures Snprintf(SizesText(rep), REPLY_MAX) == SizesText(rep)
  {
    DecLength64(rep.codeSize);
    DecLength64(rep.dataSize);
    DecLength64(rep.cacheSize);
    DecLength64(rep.asecSize);
  }

  /**
   * `getsize` replies with exactly four space-separated integers, in the
   * order code, data, cache, secondary storage, each reading back as the
   * value `get_size` produced.
   */
  lemma SizesReadBack(rep: SizeReport)
    ensures Split(SizesText(rep)) == [Dec(rep.codeSize), Dec(rep.dataSize), Dec(rep.cacheSize), Dec(rep.asecSize)]
    ensures ParseDec(Dec(rep.codeSize)) == Some(rep.codeSize as int)
    ensures ParseDec(Dec(rep.dataSize)) == Some(rep.dataSize as int)
    ensures ParseDec(Dec(rep.cacheSize)) == Some(rep.cacheSize as int)
    ensures ParseDec(Dec(rep.asecSize)) == Some(rep.asecSize as int)
  {
    var ts := [Dec(rep.codeSize), Dec(rep.dataSize), Dec(rep.cacheSize), Dec(rep.asecSize)];
    assert Join(ts[3..]) == ts[3];
    assert Join(ts[2..]) == ts[2] + [' '] + ts[3];
    assert Join(ts[1..]) == ts[1] + [' '] + ts[2] + [' '] + ts[3];
    assert Join(ts) == SizesText(rep);
    SplitJoin(ts);
    DecRoundTrip(rep.codeSize);
    DecRoundTrip(rep.dataSize);
    DecRoundTrip(rep.cacheSize);
    DecRoundTrip(rep.asecSize);
  }

  /**
   * `do_patchoat` is `do_dexopt` with vm_safe_mode fixed to 0 and
   * should_relocate set to 1: for any arguments, the patchoat call equals
   * the dexopt call given "0" as sixth argument against a collaborator
   * whose relocation flag is forced on.
   */
  lemma PatchoatIsRelocatingDexopt(arg: seq<Str>, ext: External)
    requires |arg| >= 5
    ensures Invoke(Patchoat, arg, ext) ==
            Invoke(Dexopt, arg[..5] + [Dec(0)],
                   ext.(dexopt := (p, u, pub, pkg, isa, safe, _) => ext.dexopt(p, u, pub, pkg, isa, safe, 1)))
  {
    AtoiDec(0);
    var a := arg[..5] + [Dec(0)];
    assert a[0] == arg[0] && a[1] == arg[1] && a[2] == arg[2] && a[3] == arg[3] && a[4] == arg[4];
  }

  /** The first table index at or after `from` whose name is `name`, or -1. */
  function LookupFrom(name: Str, from: nat): (i: int)
    requires from <= |Cmds|
    decreases |Cmds| - from
    ensures i == -1 || from <= i < |Cmds|
    ensures i >= 0 ==> Cmds[i].name == name
    ensures i >= 0 ==> forall k :: from <= k < i ==> Cmds[k].name != name
    ensures i == -1 ==> forall k :: from <= k < |Cmds| ==> Cmds[k].name != name
  {
    if from == |Cmds| then -1
    else if Cmds[from].name == name then from
    else LookupFrom(name, from + 1)
  }

  /** First-match lookup by exact name (`strcmp`), as the `for` loop does. */
  function Lookup(name: Str): (i: int)
    ensures -1 <= i < |Cmds|
    ensures i >= 0 ==> Cmds[i].name == name && forall k :: 0 <= k < i ==> Cmds[k].name != name
    ensures i >= 0 ==> ArgsRead(Cmds[i].func) == Cmds[i].numargs
    ensures i == -1 <==> forall k :: 0 <= k < |Cmds| ==> Cmds[k].name != name
  {
    ArityCoversWrapper();
    LookupFrom(name, 0)
  }

  /** No two table entries share a name, so first match is the only match. */
  lemma NamesDistinct()
    ensures forall i, j :: 0 <= i < j < |Cmds| ==> Cmds[i].name != Cmds[j].name
  {
  }

  lemma ArityCoversWrapper()
    ensures forall i :: 0 <= i < |Cmds| ==> ArgsRead(Cmds[i].func) == Cmds[i].numargs
  {
  }

  /** The request's name is found by the lookup and it carries exactly that entry's arity. */
  predicate Accepts(args: seq<Str>)
  {
    |args| >= 1 && Lookup(args[0]) >= 0 && Cmds[Lookup(args[0])].numargs == |args| - 1
  }

  /** Accepted exactly when SOME table entry has the request's name and arity. */
  lemma AcceptsAnyEntry(args: seq<Str>)
    requires |args| >= 1
    ensures Accepts(args) <==>
            exists j :: 0 <= j < |Cmds| && Cmds[j].name == args[0] && Cmds[j].numargs == |args| - 1
  {
    var i := Lookup(args[0]);
    if j :| 0 <= j < |Cmds| && Cmds[j].name == args[0] && Cmds[j].numargs == |args| - 1 {
      NamesDistinct();
      assert i == j;
    }
  }

  /**
   * Result code and reply text for a tokenised request `args` (`args[0]`
   * the command name): -1 and no reply for an unknown name or a wrong
   * argument count, without running any handler; otherwise the handler's.
   */
  function Dispatch(args: seq<Str>, ext: External): (out: (Int32, Str))
    requires |args| >= 1
    ensures !Accepts(args) ==> out == (-1, [])
    ensures Accepts(args) ==> out == Invoke(Cmds[Lookup(args[0])].func, args[1..], ext)
    ensures |out.1| < REPLY_MAX && NoNul(out.1)
  {
    var i := Lookup(args[0]);
    if i < 0 then (-1, [])
    else if |args| - 1 != Cmds[i].numargs then (-1, [])
    else Invoke(Cmds[i].func, args[1..], ext)
  }

  /** `ping` with no arguments always answers 0 with no text; with any argument, -1. */
  lemma PingAnswers(args: seq<Str>, ext: External)
    requires |args| >= 1 && args[0] == "ping"
    ensures Dispatch(args, ext) == if |args| == 1 then (0, []) else (-1, [])
  {
    assert Cmds[0].name == "ping";
    assert Lookup(args[0]) == 0;
  }

  /**
   * Lines 261-272: scan the table, call the handler on an exact name and
   * arity match, leave -1 on an arity mismatch or when no name matches.
   */
  method RunCommand(args: seq<Str>, ext: External) returns (ret: Int32, reply: Str)
    requires |args| >= 1
    ensures (ret, reply) == Dispatch(args, ext)
  {
    ret, reply := -1, [];
    var i := 0;
    NamesDistinct();
    ArityCoversWrapper();
    while i < |Cmds|
      invariant 0 <= i <= |Cmds|
      invariant forall k :: 0 <= k < i ==> Cmds[k].name != args[0]
      decreases |Cmds| - i
    {
      if Cmds[i].name == args[0] {
        if |args| - 1 == Cmds[i].numargs {
          ret, reply := Invoke(Cmds[i].func, args[1..], ext).0, Invoke(Cmds[i].func, args[1..], ext).1;
        }
        return;
      }
      i := i + 1;
    }
  }
}
