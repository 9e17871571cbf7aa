# installd, modelled in Dafny

`installd` is the privileged Android daemon that the package manager talks to over a local stream socket.
Each request is a frame: a 2-byte length followed by a space-separated command line.
The daemon tokenises the line in place in its 1024-byte buffer. It looks the command up in a fixed table,
runs the handler and sends back `"<ret>"` or `"<ret> <reply>"` behind a 2-byte length.
Before it serves anything, it derives its directory paths from the environment (`initialize_globals`).
It then brings the data partition's layout up to date (`initialize_directories`): a state machine
gated by a version marker file, which creates, moves and copies directories.

The project models the daemon's own logic in `native/cmds/installd/installd.c`:

| file | module | what it holds |
|---|---|---|
| `cstring.dfy` | `CString` | bytes, C strings, `isspace`, `printf("%d")`, `atoi`, `snprintf` truncation, the client's `Join`/`Split` of a command line |
| `channel.dfy` | `Channel` | the socket as a scripted kernel (short transfers, EINTR, errors, end of stream); `readx` and `writex` as loops |
| `commands.dfy` | `Commands` | the `cmds[]` table, the `do_*` wrappers (which argument goes where, through `atoi` or not), first-match dispatch |
| `execute.dfy` | `Execute` | `execute` on the `array` buffer: in-place tokeniser, dispatch, reply written at the cursor, the frame loop of `main` |
| `requestlines.dfy` | `RequestLines` | what `execute` does to the line a client writes: exact on well-spaced lines, and the inputs where it is not |
| `corrected.dfy` | `Corrected` | the repaired tokeniser and reply placement, with the intended property proved |
| `filesystem.dfy` | `FileSystem` | the tree under the data root as a map from paths to nodes; `mkdir`, `chown`, `chmod`, `symlink`, `rename`, `fs_prepare_dir`, `copy_dir_files`, `delete_dir_contents` |
| `migration.dfy` | `Migration` | `initialize_directories` as a chain of phase functions over a `Stage` (going with a version, or stopped with a code), plus its properties |
| `rerun.dfy` | `Rerun` | what each phase of `initialize_directories` leaves alone, a second run after a successful one, and a second run after a failed version-0 upgrade |
| `initdirs.dfy` | `InitDirs` | `initialize_directories` as the C code runs it: early returns for `goto fail`, `while` loops for the two `readdir` loops; each method is proved equal to its phase function |
| `globals.dfy` | `Globals` | `initialize_globals`: the six directory globals and the four-entry system directory table |

Kernel behaviour is a parameter throughout:
- the socket follows a script of call outcomes (`Channel.Channel`);
- each file-system call site has its own fault flag (`Migration.Kernel.faults`);
- `readdir` results are a function of the tree (`Migration.Kernel.listUsers`);
- the request handlers, implemented elsewhere, are an `External` record of functions.

## Model

| member | source | states |
|---|---|---|
| Channel.ReadX | native/cmds/installd/installd.c:189-208 | Returns 0 exactly when `count >= 0` and `count` bytes were received. What it received is always the front of the stream, in order, and the rest stays unread. A negative count returns -1 and consumes nothing. With a positive count, -1 holds exactly when the last call failed or read nothing (its limit was 0, or the stream ended short of `count`). Every earlier call was an EINTR or a read that moved bytes. The outcome equals `ReadLoop` on the script. |
| Channel.WriteX | native/cmds/installd/installd.c:210-225 | Returns 0 exactly when all `count` bytes were appended to the stream. Otherwise a prefix of them was appended. With a positive count, -1 holds exactly when the last call failed, and no earlier call failed. A negative count writes nothing and returns -1. There is no end-of-stream case. The outcome equals `WriteLoop` on the script. |
| Channel.ReadLoopX | native/cmds/installd/installd.c:194-206 | The loop computes exactly `ReadLoop`: its result, the bytes moved and the calls spent. The bytes received are the front of the stream and the rest stays unread. |
| Channel.WriteLoopX | native/cmds/installd/installd.c:215-223 | The loop computes exactly `WriteLoop`, and what it appends is the front of `data`. |
| Channel.ReadLoopEnds | native/cmds/installd/installd.c:194-207 | `readx` returns 0 or -1, and 0 exactly when all `count` bytes were read. It never reads more than asked or more than was sent. On -1 the last call failed or read nothing; on 0 it was a read of at least one byte. |
| Channel.ReadLoopRetries | native/cmds/installd/installd.c:196-205 | Every call before the last was an EINTR or a read that moved at least one byte. |
| Channel.ReadLoopStops | native/cmds/installd/installd.c:196-204 | While bytes are still needed, a failed call or a read of nothing ends the loop at once with -1 and nothing more read. An EINTR is retried with nothing read. |
| Channel.WriteLoopEnds | native/cmds/installd/installd.c:215-224 | `writex` returns 0 or -1, and 0 exactly when all `count` bytes were written. On -1 the last call failed; on 0 it was a write. A failed call ends the loop at once with -1. |
| Channel.WriteLoopRetries | native/cmds/installd/installd.c:216-221 | Every call before the last was an EINTR or a write; no earlier call failed. |
| Channel.WriteLoopStep | native/cmds/installd/installd.c:216-222 | One call while bytes remain: an EINTR is retried, a failure ends with -1 and nothing more written, and a write of `k` bytes leaves `count - k` to the rest of the loop. |
| CString.IsSpace | native/cmds/installd/installd.c:249 | `isspace` in the C locale holds for exactly the six bytes 9-13 and 32, and never for NUL, a digit or a sign. |
| CString.Dec | native/cmds/installd/installd.c:276-278 | `%d` prints at least one byte, with no white space or NUL, and prints only digits exactly when the number is not negative. |
| CString.Atoi | native/cmds/installd/installd.c:36 | `atoi` of a run of digits is its decimal value, and of blank input is 0. |
| CString.DecRoundTrip | native/cmds/installd/installd.c:276-278 | What `%d` prints reads back as the same integer. |
| CString.AtoiDec | native/cmds/installd/installd.c:36 | `atoi` of a `%d`-printed integer is that integer, so numeric arguments survive the text protocol. |
| CString.DecLength32 | native/cmds/installd/installd.c:276-278 | A 32-bit result code prints in at most 11 characters. |
| CString.DecLength64 | native/cmds/installd/installd.c:106-107 | An `int64_t` prints in at most 20 characters. |
| CString.SplitJoin | native/cmds/installd/installd.c:247-259 | Splitting at every white-space byte gives back the tokens a client joined with single spaces. |
| CString.CStr | native/cmds/installd/installd.c:250-251 | The C string at an offset is the NUL-free run that starts there, ending at a NUL or at the end of memory. |
| CString.Split | native/cmds/installd/installd.c:247-259 | Splitting at white space gives one token more than there are separators, and no token holds white space. |
| CString.Snprintf | native/cmds/installd/installd.c:106 | `snprintf` keeps a prefix of fewer than `size` bytes, and keeps the whole string when it fits. |
| Commands.Invoke | native/cmds/installd/installd.c:34-156 | Only `getsize` writes reply text. The reply of every wrapper is NUL-free and shorter than REPLY_MAX. |
| Commands.SizesFit | native/cmds/installd/installd.c:102-107 | The four `int64_t` sizes take at most 83 characters, so the `snprintf` into REPLY_MAX never truncates them. |
| Commands.SizesReadBack | native/cmds/installd/installd.c:106-107 | The `getsize` reply splits into exactly four integers (code, data, cache, ASEC), each reading back as the value `get_size` produced. |
| Commands.SizesNoNul | native/cmds/installd/installd.c:106-107 | The `getsize` reply holds no NUL, so the client reads all of it. |
| Commands.PatchoatIsRelocatingDexopt | native/cmds/installd/installd.c:39-43 | `patchoat` is `dexopt` with vm_safe_mode 0 and should_relocate 1, where dexopt passes 0. |
| Commands.LookupFrom | native/cmds/installd/installd.c:261-262 | Returns the first table index from `from` on whose name equals the request's, or -1 when there is none. |
| Commands.Lookup | native/cmds/installd/installd.c:164-187 | First match by exact name, or -1 exactly when no entry has that name. For every entry, the wrapper reads exactly `numargs` arguments. |
| Commands.NamesDistinct | native/cmds/installd/installd.c:164-187 | No two table entries share a name. |
| Commands.ArityCoversWrapper | native/cmds/installd/installd.c:164-187 | Each entry's `numargs` equals the number of arguments its wrapper reads. |
| Commands.AcceptsAnyEntry | native/cmds/installd/installd.c:261-272 | A request is accepted exactly when some entry has its name and its argument count. |
| Commands.Dispatch | native/cmds/installd/installd.c:261-272 | An unknown name or a wrong argument count gives -1 with no reply and runs no handler. Otherwise the result is that entry's handler's. |
| Commands.PingAnswers | native/cmds/installd/installd.c:29-32 | `ping` answers 0 with no text when given no arguments, and -1 when given any. |
| Commands.RunCommand | native/cmds/installd/installd.c:261-272 | The table-scanning loop returns what `Dispatch` specifies. |
| Execute.ScanFrom | native/cmds/installd/installd.c:247-259 | The scan either gives up at TOKEN_MAX with TOKEN_MAX+1 offsets, or stops on a NUL with at most TOKEN_MAX offsets. Offsets stay in order before the cursor, and earlier offsets are kept. |
| Execute.Tokens | native/cmds/installd/installd.c:247-259 | The scan from the start keeps the buffer size and records offset 0 first. It stops on a NUL with at most TOKEN_MAX offsets, or gives up with TOKEN_MAX+1. Each byte is kept, or was white space and became NUL. |
| Execute.ArgStrings | native/cmds/installd/installd.c:250-251 | One string per recorded offset. Each is the NUL-free run of the buffer at its offset, ending at a NUL or at the end of the buffer. |
| Execute.Tokenize | native/cmds/installd/installd.c:244-259 | The in-place loop over the `array` leaves exactly the buffer, cursor and offsets `Tokens` specifies, or reports a read past the buffer. |
| Execute.ReplyLine | native/cmds/installd/installd.c:275-279 | The line starts with `%d` of the code. With reply text, a single space and then exactly that text follow; without, nothing follows. A NUL-free reply gives a NUL-free line. |
| Execute.ReplyLineShort | native/cmds/installd/installd.c:275-279 | A reply line is at most 267 bytes, well under BUFFER_MAX. |
| Execute.ReplyRoundTrip | native/cmds/installd/installd.c:275-279 | The client's reading of a reply line gives back the result code and the reply text. |
| Execute.HeaderRoundTrip | native/cmds/installd/installd.c:281-284 | The 2-byte length prefix reads back as the count. |
| Execute.Header | native/cmds/installd/installd.c:281-284 | The length prefix is exactly two bytes. |
| Execute.Outcome | native/cmds/installd/installd.c:253-256 | When the tokeniser gave up, no handler runs and the result is -1 with no reply. |
| Execute.Respond | native/cmds/installd/installd.c:232-286 | The bytes sent lie inside the buffer, starting at the cursor. |
| Execute.Place | native/cmds/installd/installd.c:275-285 | A reply that is placed and sent lies inside the buffer, from the cursor on. |
| Execute.PlaceShort | native/cmds/installd/installd.c:275-285 | A reply is placed and sent in full exactly when it fits after the cursor, keeping every byte before the cursor. |
| Execute.RespondSendsLine | native/cmds/installd/installd.c:274-285 | Whenever `execute` answers, it sends exactly the reply line for the result and the handler's text. |
| Execute.TooManyStillAnswers | native/cmds/installd/installd.c:253-256 | With too many tokens, `"-1"` is still sent and no handler runs. |
| Execute.ExecuteRequest | native/cmds/installd/installd.c:232-287 | Tokenises the `array` in place and writes the reply at the cursor, leaving the buffer `Respond` specifies. Sends the length and the reply with `writex`. Returns 0 exactly when both were written in full. Reports a read or write past the buffer. |
| Execute.Answer | native/cmds/installd/installd.c:244-276 | Leaves the tokenised buffer, cursor, result code and reply line. |
| Execute.WriteLine | native/cmds/installd/installd.c:276-278 | The reply and its NUL are written at the cursor, and every other byte is unchanged. |
| Execute.SendFrame | native/cmds/installd/installd.c:281-285 | Writes the 2-byte length and then the reply. Returns 0 exactly when both went out in full; otherwise a prefix of them went out. |
| Execute.ReadRequest | native/cmds/installd/installd.c:759-772 | The outcome follows from what the script delivers. If the 2-byte header read fails, the result is `ReadFailed`. If it arrives with a length outside 1..1023, the result is `BadSize`: exactly two bytes are consumed and the payload is not read. If it arrives with a length in range, the result is `Request` exactly when the payload read succeeds. Then exactly `count` bytes are in `buf` and `buf[count]` is 0. Otherwise the result is `ReadFailed`. |
| Execute.ServeConnection | native/cmds/installd/installd.c:757-777 | The per-connection loop only moves the connection forward, and what it wrote stays written. |
| RequestLines.ServeFits | native/cmds/installd/installd.c:274-280 | The reply to any line fits the buffer together with its NUL. |
| RequestLines.ScanWellSpaced | native/cmds/installd/installd.c:247-259 | On a line with no two adjacent separators and none at the end, the scan blanks every separator and records the offset after it. It gives up exactly when the separator count reaches TOKEN_MAX. |
| RequestLines.BlankedTokens | native/cmds/installd/installd.c:247-252 | The C strings at the recorded offsets are the line's `Split` tokens. |
| RequestLines.RespondWellSpaced | native/cmds/installd/installd.c:232-286 | On a well-spaced line whose reply fits after it, `execute` sends exactly the reply to the line's tokens. |
| RequestLines.RespondOverflows | native/cmds/installd/installd.c:276 | On a well-spaced line whose reply does not fit after its NUL, the reply is written past the buffer. |
| RequestLines.DoubleSpaceMisread | native/cmds/installd/installd.c:249-258 | On `"a  b"` the byte after the first separator is never examined: one argument `" b"` instead of `""` and `"b"`. |
| RequestLines.TrailingSpaceReadsStaleBytes | native/cmds/installd/installd.c:249-258 | On `"ping "` the terminating NUL is skipped and stale bytes become arguments. |
| RequestLines.TrailingSpaceOverruns | native/cmds/installd/installd.c:249-258 | A separator just before the final NUL of a full buffer makes the scan read past `buf`. |
| RequestLines.LongLineReplyOverflows | native/cmds/installd/installd.c:276 | A well-spaced line that fills the buffer has even `"-1"` written past its end. |
| Corrected.ScanFixedLine | native/cmds/installd/installd.c:247-259 | The repaired scan stops at the line's NUL on ANY line, blanking each separator. It gives up exactly when the separators reach TOKEN_MAX. |
| Corrected.ScanFixed | native/cmds/installd/installd.c:247-259 | The repaired scan keeps the buffer size, never drops below the offsets already recorded, and records at most TOKEN_MAX+1. |
| Corrected.RespondFixedServes | native/cmds/installd/installd.c:232-286 | With both repairs, every request line is answered with the reply to exactly its `Split` tokens. |
| Corrected.RespondFixed | native/cmds/installd/installd.c:274-285 | The repaired reply is placed at the start of the buffer and fits it. |
| Corrected.ServeTrailingPing | native/cmds/installd/installd.c:165 | `"ping "` has two tokens, so the repaired daemon answers -1. |
| Corrected.TrailingSpaceFixed | native/cmds/installd/installd.c:247-259 | The input of `TrailingSpaceReadsStaleBytes` is answered `"-1"` after the repair. |
| Globals.StrLen | native/cmds/installd/installd.c:352 | `strlen` counts the NUL-free prefix, which stops at a NUL or at the end. |
| Globals.DataDirs | native/cmds/installd/installd.c:306-334 | The six directory globals are set exactly when ANDROID_DATA and ASEC_MOUNTPOINT are set and all four appends succeed. They are then, in order: ANDROID_DATA, ANDROID_DATA plus the app, private-app and app-lib sub-directories, ASEC_MOUNTPOINT, and ANDROID_DATA plus the media sub-directory. |
| Globals.SystemTable | native/cmds/installd/installd.c:336-361 | The table exists exactly when `calloc` succeeds and ANDROID_ROOT is set. It has four entries, each `len` being `strlen(path)`. |
| Globals.InitializeGlobals | native/cmds/installd/installd.c:305-364 | Succeeds exactly when every step does. Each field is then the matching environment value or appended path, and the system table is the four-entry table of lines 337-361. |
| Globals.SystemDirs | native/cmds/installd/installd.c:351-361 | The table lists the root's app and priv-app directories, then /vendor/app/ and /oem/app/. Each `len` is the full path length (12 and 9 for the literals). |
| FileSystem.Mkdir | native/cmds/installd/installd.c:393 | Succeeds exactly when there is no injected failure, nothing is at `p` and the parent is a directory. It then leaves a root:root directory with the given mode at `p` and changes nothing else. |
| FileSystem.Chown | native/cmds/installd/installd.c:397 | Succeeds exactly when there is no injected failure and something is at `p`. It then sets that node's owner, keeping its kind and mode. |
| FileSystem.Chmod | native/cmds/installd/installd.c:401 | Succeeds exactly when there is no injected failure and something is at `p`. It then sets that node's mode and changes nothing else. |
| FileSystem.Symlink | native/cmds/installd/installd.c:414 | Succeeds exactly when the call does not fail, nothing is at the path, and its parent is a directory. It then creates a root-owned 0777 link to the target and changes nothing else. |
| FileSystem.PrepareDir | native/cmds/installd/installd.c:426 | Leaves a directory with the given owner and mode at `p`, changing nothing else. Always succeeds on an existing directory, and creates `p` when it is absent and its parent is a directory. Fails on a non-directory, an absent parent or an injected failure. |
| FileSystem.PrepareDirIdempotent | native/cmds/installd/installd.c:426 | Preparing the same directory twice changes nothing the second time. |
| FileSystem.PrepareDirSettled | native/cmds/installd/installd.c:536-554 | Preparing a directory that already has the asked owner and mode changes nothing. |
| FileSystem.Move | native/cmds/installd/installd.c:440 | Every node below `src` reappears at the same place below `dst`. Nothing else changes, nothing is left below `src` outside `dst`, and everything below `dst` came from `src`. |
| FileSystem.Rename | native/cmds/installd/installd.c:440 | Succeeds only on an existing source and then moves the subtree as `Move` says. |
| FileSystem.RenameMoves | native/cmds/installd/installd.c:439-440 | When the target is absent, its parent a directory and it is not inside the source, `rename` succeeds with the move. |
| FileSystem.CopyDirFiles | native/cmds/installd/installd.c:602 | Leaves a directory at `dst` with a copy of every regular file directly inside `src`, owned by the given uid:gid. Nothing outside `dst` changes. A newly created `dst` is owned by that uid:gid with mode 0700. |
| FileSystem.DeleteDirContents | native/cmds/installd/installd.c:615 | Removes everything below `p`, and `p` itself when `also_delete_dir` is set. Nothing outside changes. |
| Migration.StoredVersion | native/cmds/installd/installd.c:374-377 | A marker that cannot be read counts as version 0; otherwise its number. |
| Migration.MarkerRoundTrip | native/cmds/installd/installd.c:626-627 | A written version reads back unchanged. |
| Migration.WriteMarker | native/cmds/installd/installd.c:627 | Succeeds exactly when the call does not fail, the data root is a directory, and no directory is at the marker path. It then leaves a root-owned 0600 file holding the decimal version and changes nothing else. |
| Migration.UserId | native/cmds/installd/installd.c:581 | The user number is below 2^32. For an all-digit name it is the decimal value of the name modulo 2^32, as the `uint32_t` assignment of `atoi` does. |
| Migration.UserIdDec | native/cmds/installd/installd.c:581 | The entry named by `%d` of a number gives back that number modulo 2^32, negative numbers included. |
| Migration.MultiuserUid | native/cmds/installd/installd.c:596 | A per-user uid is a 32-bit value. |
| Migration.MultiuserUidSplit | native/cmds/installd/installd.c:596 | For every user below 42949, whose uid range fits in 32 bits, the uid divided by 100000 gives back the user, and its remainder is the app id modulo 100000. |
| Migration.EnsureMediaUserDirs | native/cmds/installd/installd.c:496 | On success `/data/media/<id>` is media_rw:media_rw 0770 and nothing else changes. It succeeds exactly when no fault is injected and either a directory is already there or nothing is there and `/data/media` is a directory. |
| Migration.EnsureConfigUserDirs | native/cmds/installd/installd.c:584 | On success `/data/misc/user/<id>` is a 0750 directory owned by user `id`'s system uid and everybody gid, and nothing else changes. It succeeds exactly when no fault is injected and either a directory is already there or nothing is there and `/data/misc/user` is a directory. |
| Migration.UsersDir | native/cmds/installd/installd.c:390-411 | `/data/user` is created only when `access` finds nothing there, as system:system 0711. A failed `mkdir` gives -2 with the tree unchanged. When `mkdir` succeeded, a failed `chown` gives -3 with the root-owned directory left, and a failed `chmod` after that gives -4 with the system-owned directory left. |
| Migration.PrimaryLink | native/cmds/installd/installd.c:412-418 | `/data/user/0` becomes a link to `/data/data` only when `access` finds nothing there. In that case the run goes on exactly when the `symlink` does not fail, nothing is at the path, and `/data/user` is a directory. The tree then gains just that link. Otherwise the run stops with -18 and the tree is unchanged. |
| Migration.DanglingPrimaryLink | native/cmds/installd/installd.c:413-417 | A dangling `/data/user/0` link counts as absent, so the `symlink` fails and the run stops with -18. |
| Migration.MediaAside | native/cmds/installd/installd.c:420-444 | Runs only at version 0. It stops with -5 and an unchanged tree exactly when `fs_prepare_dir` of `/data/media` fails. It stops with -1 only when media.tmp is absent and the rename fails, because `res` keeps its initial value; when `/data/media` is a directory and media.tmp is absent, an injected rename failure always gives -1. |
| Migration.MediaRecreate | native/cmds/installd/installd.c:445-474 | Runs only at version 0. It stops with -6 and an unchanged tree exactly when `fs_prepare_dir` of `/data/media` fails. After a successful prepare, a failed `restorecon` gives -7. -13 comes only from the rename of an existing media.tmp. |
| Migration.MediaAsideGuard | native/cmds/installd/installd.c:438-444 | The move to media.tmp is attempted only when media.tmp is absent, and its failure then stops the run with -1. |
| Migration.OwnerMediaGuard | native/cmds/installd/installd.c:467-474 | The move into media/0 is attempted only when media.tmp is present, and its failure then gives -13. |
| Migration.UserMedia | native/cmds/installd/installd.c:481-505 | Touches only `/data/media/<name>` for directory entries other than "." and "..". Fails with -8. |
| Migration.UserMediaCreates | native/cmds/installd/installd.c:481-505 | With no faults, every DT_DIR entry other than "." and ".." gets a media_rw 0770 media directory. |
| Migration.MediaForUsers | native/cmds/installd/installd.c:476-509 | Runs only at version 0, and a success moves to version 1. |
| Migration.ObbMove | native/cmds/installd/installd.c:511-534 | Runs only at version 1, and a success moves to version 2. When the shared OBB directory exists or user 0's does not, it only moves to version 2. A failed rename gives -14 with the tree unchanged. |
| Migration.ObbMoved | native/cmds/installd/installd.c:525-530 | From version 1, with no shared OBB directory, user 0's OBB directory present, `/data/media` a directory and no injected failure, the OBB tree moves to `/data/media/obb` and the step reports version 2. |
| Migration.ObbGuard | native/cmds/installd/installd.c:524-531 | The OBB rename is attempted only when the shared directory is absent and the owner's exists. Its failure then stops the run with -14; otherwise the step moves to version 2 whatever the fault. |
| Migration.UserZero | native/cmds/installd/installd.c:536-554 | Runs on every pass. A failed `ensure_media_user_dirs(0)` gives -15. After it, a failed `fs_prepare_dir` of the OBB directory gives -9, and after that a failed `ensure_config_user_dirs(0)` gives -16. On success, user 0's media directory and the shared OBB directory are media_rw:media_rw 0770, and user 0's config directory is system:everybody 0750. |
| Migration.UserZeroSettled | native/cmds/installd/installd.c:536-554 | Once those three directories are in place, the step changes nothing. |
| Migration.CopyIfPresent | native/cmds/installd/installd.c:601-605 | A copy only touches the target directory. When the source is a directory, the target can be made and there is no fault, every file of the source is copied in, owned by the given uid. |
| Migration.CopyCerts | native/cmds/installd/installd.c:589-610 | The two copies touch only the user's cacerts-added and cacerts-removed directories. |
| Migration.ConfigUser | native/cmds/installd/installd.c:581-610 | On success the config directory of user `atoi(name)` is that user's system:everybody 0750 directory. A failure of `ensure_config_user_dirs` fails the entry. |
| Migration.UserConfig | native/cmds/installd/installd.c:572-611 | The loop stops only with -10, and leaves the marker alone. |
| Migration.UserConfigCreates | native/cmds/installd/installd.c:572-587 | A completed loop has made, for EVERY entry other than "." and ".." whatever its type, the config directory of user `atoi(name)`, owned by that user's system uid and everybody gid, mode 0750. |
| Migration.ConfigUserKeepsNode | native/cmds/installd/installd.c:581-610 | One entry of the config loop keeps every user's system:everybody 0750 config directory, because two entries naming the same directory name the same user. |
| Migration.UserConfigKeepsNode | native/cmds/installd/installd.c:572-611 | The config loop keeps every user's system:everybody 0750 config directory as it found it. |
| Migration.UserConfigKeepsDirs | native/cmds/installd/installd.c:572-611 | The config loop never removes a directory three levels down, such as a user's config directory, that was there before. |
| Migration.UserConfigFails | native/cmds/installd/installd.c:584-587 | If any entry reached has its config directory fail, the loop stops. |
| Migration.CopyFailuresOnlyLogged | native/cmds/installd/installd.c:602-609 | Whether the loop completes does not depend on the copies at all. |
| Migration.AddedCertCopied | native/cmds/installd/installd.c:596-605 | With no copy fault, each file of the shared cacerts-added directory lands in the user's directory, owned by the user's system uid. |
| Migration.RemovedCertCopied | native/cmds/installd/installd.c:606-610 | The same for cacerts-removed. |
| Migration.DeleteIfPresent | native/cmds/installd/installd.c:614-619 | Without a fault, the directory and everything below it are gone, and nothing outside changes. |
| Migration.ClearKeychain | native/cmds/installd/installd.c:614-619 | Both shared keychain directories are gone unless their delete failed. |
| Migration.ConfigForUsers | native/cmds/installd/installd.c:556-623 | Runs only at version 2, and a success moves to version 3. Failure gives -10. |
| Migration.ClearKeychainKeepsConfig | native/cmds/installd/installd.c:614-619 | Deleting the shared keychain directories never changes a user's config directory. |
| Migration.ConfigEveryEntry | native/cmds/installd/installd.c:556-623 | A successful v2 step has made every listed user's config directory as that user's system:everybody 0750, and removed both keychain directories. |
| Migration.ConfigEveryUser | native/cmds/installd/installd.c:556-611 | When `readdir` lists exactly the entries of `/data/user`, a successful v2 step has made the config directory of EVERY entry there other than "." and "..", as that user's system:everybody 0750. |
| Migration.MediaEveryUser | native/cmds/installd/installd.c:476-509 | When `readdir` lists exactly the entries of `/data/user` and no preparation fails, the media loop succeeds and every sub-directory of `/data/user` other than "." and ".." gets a media_rw 0770 media directory. |
| Migration.Persist | native/cmds/installd/installd.c:625-632 | The marker is written only when the version changed, and then reads back as it. When the version changed, the run goes on exactly when the write does not fail, the data root is a directory, and no directory is at the marker path. Only the marker changes. Otherwise the run stops with -17 and the tree is unchanged. |
| Migration.VersionFlow | native/cmds/installd/installd.c:374-632 | From a stored 0, 1 or 2, a successful run leaves the marker reading 3. From any other version, or on failure, the marker is untouched. |
| Migration.Migrate | native/cmds/installd/installd.c:366-642 | The run returns 0 or one of its 17 failure codes. A failed allocation of the `/data/user`, `/data/data` or `/data/user/0` path strings (lines 380-388) gives -11 with the tree unchanged. |
| Migration.MediaUpgrade | native/cmds/installd/installd.c:420-509 | Runs only at version 0, and a success moves to version 1. Failures give -5, -1, -6, -7, -13 or -8. The marker is untouched. |
| Migration.ReadMarker | native/cmds/installd/installd.c:374-377 | Reads a value only from a regular file at the marker path. A marker holding `%d` of a version reads back as that version. |
| Migration.FreshInstall | native/cmds/installd/installd.c:366-642 | On a fresh data partition with no faults and no users listed, the run returns 0 and leaves exactly the expected tree: /data/user, the /data/user/0 link, the media, OBB and user-0 config directories, and the version file holding 3. |
| Migration.FreshSettles | native/cmds/installd/installd.c:366-642 | A second run on that result returns 0 and changes nothing. |
| Migration.FreshDoneReads | native/cmds/installd/installd.c:374-377 | After a fresh install, the marker reads back as 3, and `/data/user` and `/data/user/0` are reachable. |
| Migration.FreshDoneSettled | native/cmds/installd/installd.c:536-554 | After a fresh install, the every-run step changes nothing. |
| Rerun.InsideTop | native/cmds/installd/installd.c:366-642 | Every path below a non-empty path lies below its top-level entry. |
| Rerun.UsersDirFrame | native/cmds/installd/installd.c:391-411 | Creating `/data/user` changes nothing else. |
| Rerun.PrimaryLinkFrame | native/cmds/installd/installd.c:412-418 | Linking `/data/user/0` changes nothing else, and changes something only when nothing was there. |
| Rerun.MediaAsideFrame | native/cmds/installd/installd.c:420-443 | The move aside touches only `/data/media` and `/data/media.tmp`. |
| Rerun.MediaRecreateFrame | native/cmds/installd/installd.c:445-474 | Recreating `/data/media` touches only `/data/media` and `/data/media.tmp`. |
| Rerun.MediaTargetsInside | native/cmds/installd/installd.c:479-502 | Every directory the media loop may prepare lies inside `/data/media`. |
| Rerun.MediaForUsersFrame | native/cmds/installd/installd.c:476-509 | The media loop touches only `/data/media`. |
| Rerun.MediaUpgradeFrame | native/cmds/installd/installd.c:420-509 | The version-0 step touches only `/data/media` and `/data/media.tmp`. |
| Rerun.ObbMoveFrame | native/cmds/installd/installd.c:511-534 | The version-1 step touches only `/data/media`. |
| Rerun.UserZeroFrame | native/cmds/installd/installd.c:536-554 | The every-run step touches only `/data/media` and `/data/misc`. |
| Rerun.CertsInsideMisc | native/cmds/installd/installd.c:590-593 | A user's cacerts-added and cacerts-removed directories lie inside `/data/misc`. |
| Rerun.CopyCertsFrame | native/cmds/installd/installd.c:589-610 | The keychain copies touch only `/data/misc`. |
| Rerun.ConfigUserFrame | native/cmds/installd/installd.c:581-610 | One entry of the config loop touches only `/data/misc`. |
| Rerun.UserConfigFrame | native/cmds/installd/installd.c:572-611 | The config loop touches only `/data/misc`. |
| Rerun.ConfigForUsersFrame | native/cmds/installd/installd.c:556-624 | The version-2 step touches only `/data/misc`. |
| CString.DecInjective | native/cmds/installd/installd.c:276-278 | Two integers that `%d` prints the same are equal. |
| Rerun.ZeroUids | native/cmds/installd/installd.c:596 | User 0's system and everybody uids are the app ids themselves. |
| Rerun.ConfigForUsersKeepsZero | native/cmds/installd/installd.c:556-624 | The version-2 step leaves user 0's config directory as system:everybody 0750. |
| Rerun.FixedPathsApart | native/cmds/installd/installd.c:366-642 | `/data/user`, `/data/user/0` and `/data/data` lie outside what the later steps rewrite. So do user 0's media and OBB directories, which also lie outside `/data/misc`. |
| Rerun.Stages | native/cmds/installd/installd.c:366-642 | The run's result and tree are those of the last stage in the chain of phases. |
| Rerun.UsersReady | native/cmds/installd/installd.c:391-411 | After a successful users step, `/data/user` is reachable. Its link target, `/data/data` and any link at `/data/user/0` are as before. |
| Rerun.PrimaryReady | native/cmds/installd/installd.c:412-418 | After a successful link step, both `/data/user` and `/data/user/0` are reachable. |
| Rerun.LinkedReachable | native/cmds/installd/installd.c:391-418 | After both first steps succeed, `/data/user` and `/data/user/0` are reachable, and any link there points outside what the rest rewrites. |
| Rerun.PersistFrame | native/cmds/installd/installd.c:626-632 | Writing the version back touches only the marker. |
| Rerun.ZeroToDoneFrame | native/cmds/installd/installd.c:556-632 | From the every-run step to the end, the run touches only `/data/misc` and the marker. |
| Rerun.LaterStepsFrame | native/cmds/installd/installd.c:420-632 | After the link step, the run touches only `/data/media`, `/data/media.tmp`, `/data/misc` and the marker. |
| Rerun.DoneReachable | native/cmds/installd/installd.c:366-642 | A successful run leaves `/data/user` and `/data/user/0` reachable. |
| Rerun.DoneMediaNodes | native/cmds/installd/installd.c:536-632 | A successful run leaves user 0's media directory and the shared OBB directory as media_rw:media_rw 0770. |
| Rerun.DoneConfigNode | native/cmds/installd/installd.c:550-632 | A successful run leaves user 0's config directory as system:everybody 0750. |
| Rerun.ConfigNodeToDone | native/cmds/installd/installd.c:550-632 | Once the every-run step has succeeded, user 0's config directory stays system:everybody 0750 to the end of the run, whether or not later steps fail. |
| Rerun.DoneVersion | native/cmds/installd/installd.c:374-632 | A successful run leaves a marker that no versioned step acts on. |
| Rerun.SettledRun | native/cmds/installd/installd.c:366-642 | On a settled tree, the run returns 0 and changes nothing. |
| Rerun.RerunSettles | native/cmds/installd/installd.c:366-642 | With no faults, `/data/data` present and no link at `/data/user` or `/data/user/0` into what the run rewrites, a second run after a successful one returns 0 and changes nothing. |
| Rerun.AsideMoves | native/cmds/installd/installd.c:420-443 | An existing `/data/media` with no media.tmp anywhere moves whole to `/data/media.tmp`. |
| Rerun.RecreateMoves | native/cmds/installd/installd.c:445-474 | With media.tmp there and nothing under `/data/media`, media.tmp becomes `/data/media/0`. |
| Rerun.AsideLeaves | native/cmds/installd/installd.c:438-443 | After the move aside, the root is still a directory, media.tmp is there and nothing is left under `/data/media`. |
| Rerun.NestedPath | native/cmds/installd/installd.c:438-474 | A path under `/data/media/0` reappears one level deeper, at `/data/media/0/0/...`, after both moves. |
| Rerun.RetryNestsOwnerMedia | native/cmds/installd/installd.c:420-474 | On a tree that already has `/data/media/0`, a re-run of the version-0 step moves every file of the owner one level deeper, into `/data/media/0/0`. |
| InitDirs.MediaLoop | native/cmds/installd/installd.c:481-505 | The `readdir` loop computes exactly `UserMedia`. |
| InitDirs.SetMediaAside | native/cmds/installd/installd.c:420-444 | Computes exactly `MediaAside`. |
| InitDirs.RemakeMedia | native/cmds/installd/installd.c:445-474 | Computes exactly `MediaRecreate`. |
| InitDirs.UpgradeFromV0 | native/cmds/installd/installd.c:420-509 | The version-0 block computes exactly the three media phases. |
| InitDirs.ConfigLoop | native/cmds/installd/installd.c:572-611 | The `readdir` loop computes exactly `UserConfig`. |
| InitDirs.UpgradeFromV2 | native/cmds/installd/installd.c:556-623 | The version-2 block computes exactly `ConfigForUsers`. |
| InitDirs.MakeUsersDir | native/cmds/installd/installd.c:390-411 | Computes exactly `UsersDir`. |
| InitDirs.MakePrimaryLink | native/cmds/installd/installd.c:412-418 | Computes exactly `PrimaryLink`. |
| InitDirs.MoveSharedObb | native/cmds/installd/installd.c:511-534 | Computes exactly `ObbMove`. |
| InitDirs.PrepareUserZero | native/cmds/installd/installd.c:536-554 | Computes exactly `UserZero`. |
| InitDirs.WriteBackVersion | native/cmds/installd/installd.c:625-632 | Computes exactly `Persist`. |
| InitDirs.InitializeDirectories | native/cmds/installd/installd.c:366-642 | Returns what `Migrate` specifies: 0 or a failure code. After a successful run from version 0, 1 or 2 the marker reads 3; otherwise the marker is untouched. |

## Left out

- The listening socket, `accept`, `fcntl` and the outer accept loop (lines 737-756, 778-780) are OS plumbing. Only the per-connection loop is modelled, against a scripted channel.
- SELinux: `selinux_android_restorecon` is only a call that may fail with -7. The status check and context reload at lines 773-775 are left out, as are `log_callback` and the status open at start-up.
- `drop_privileges` (lines 644-684) is kernel calls that exit on failure.
- The request handlers (`install`, `dexopt`, `get_size`, ...) are defined elsewhere. They are uninterpreted functions, and only their argument mapping is modelled.
- The `MY_DEBUG_ROOT` branches (-77, -12, mode 0777, uid 2000) are left out. Only the production path is modelled.
- `atoi`/`atoll` overflow is undefined in C and is not modelled. `Atoi` reads the whole digit run as an unbounded integer. Only `(uint32_t) atoi(name)` is reduced modulo 2^32, as the C assignment does.
- `free_globals` (lines 293-303) is never called, and `free(user_data_dir)` and the other frees at lines 638-640 only release memory.
- `build_string2`/`build_string3` returning NULL is the single fault site `Alloc` (-11). Paths are modelled as component lists, so the `PATH_MAX` truncation of `snprintf` into path buffers is not modelled.
- The helpers from utils.c are not part of this model; each is modelled by its documented effect: `fs_prepare_dir`, `fs_read_atomic_int`, `fs_write_atomic_int`, `copy_dir_files`, `delete_dir_contents`, `ensure_media_user_dirs`, `ensure_config_user_dirs`, `multiuser_get_uid`, `get_path_from_env`, `copy_and_append`. A failing primitive leaves the tree unchanged, so partial effects (some files copied) are not modelled.
- FileSystem.Reachable: `access(R_OK)` follows one level of symbolic links, and permission bits are not checked.
- Migration.MediaForUsers: `opendir` is modelled as "the users directory is a directory", and `readdir`'s listing is a parameter of the tree at open time. Changes the loop makes do not alter the listing.
- Migration.DeleteIfPresent: `delete_dir_contents(p, 1, 0)` passes 1 as `also_delete_dir`, so the shared keychain directories are removed, not merely emptied. An emptied-but-kept reading of that call disagrees with the argument, and the model follows the code.
- Migration.ConfigUser: the user number is `atoi(name)`, but the copy targets use the entry's raw name (lines 590-593). A non-numeric entry therefore gets config directory 0, with the certificates copied under its own name, exactly as written.
- Globals.InitializeGlobals: globals assigned before a failing step are not kept, because `main` exits on failure (lines 720-723).
- Execute.ServeConnection: the contract states only that the connection moves forward and written bytes stay written. Per-request behaviour is stated by `ReadRequest` and `ExecuteRequest`.
- Migration.Migrate: re-running is proved stable only after a SUCCESSFUL run (`Rerun.RerunSettles`). A run that fails after the version-0 moves keeps the marker at 0, so the next boot moves the owner's media one level deeper (`Rerun.RetryNestsOwnerMedia`). When `/data/data` is absent, the first run leaves a dangling `/data/user/0` link and returns 0, and the next run stops with -18 (`Migration.DanglingPrimaryLink`). The C code does exactly this, and the model keeps it.
- Migration.ListsChildren: `readdir` is a parameter. `Migration.ConfigEveryEntry` and `Migration.UserMediaCreates` hold for whatever it lists. `Migration.ConfigEveryUser` and `Migration.MediaEveryUser` hold for every entry of `/data/user` only under `ListsChildren`, which says the listing is exactly the children of `/data/user`.
- Channel.WriteX: a `write` that returns 0 leaves the C loop retrying forever (lines 215-223). The model spends one script entry per call, so such a connection ends when the script does, and non-termination is not modelled.
- FileSystem.DeleteDirContents: the real `delete_dir_contents` fails on a non-directory. The model removes `p` and what lies below it whatever its kind. Its only caller (lines 614-619) ignores the result. So where the real call would leave a regular file at a keychain path, the model removes it.
- Globals.SystemTable: when `build_string2` returns NULL at lines 351-355, the following `strlen(NULL)` is undefined behaviour. The model treats that allocation as succeeding.
- Execute.Respond: where the C code reads or writes outside `buf` (undefined behaviour), the model returns `Undefined` and the connection ends there.

## Findings

| source | as written | input that shows it | evidently intended | confidence | as-written member | corrected member |
|---|---|---|---|---|---|---|
| native/cmds/installd/installd.c:249-258 | After a separator is overwritten by `*cmd++ = 0`, the loop's own `cmd++` skips the next byte. | `"a  b"` gives arguments `"a"`, `" b"`; `"ping "` steps over the terminating NUL and reads stale bytes; a separator in byte 1022 reads past `buf` | each separator starts exactly one new token, and the scan ends at the line's NUL | not executed | RequestLines.DoubleSpaceMisread, RequestLines.TrailingSpaceReadsStaleBytes, RequestLines.TrailingSpaceOverruns | Corrected.ScanFixedLine, Corrected.RespondFixedServes |
| native/cmds/installd/installd.c:276-285 | The reply is `snprintf`'d into `cmd`, which is the tokeniser's advanced cursor, with size BUFFER_MAX. | a 1023-byte well-spaced request: `"-1"` is written at offset 1023+, past the 1024-byte buffer | the reply written from the start of the 1024-byte buffer | not executed | RequestLines.RespondOverflows, RequestLines.LongLineReplyOverflows | Corrected.RespondFixed, Corrected.RespondFixedServes |
